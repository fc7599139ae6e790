/**
 * The reports screen: the batch filter, the summary figures, the three-level
 * status of the table and of the export, the table order and the CSV text
 * that the export downloads.
 *
 * Dates in the filter are timestamps (`None` while the date field is empty);
 * `formatDate` stands for `toLocaleDateString('es-ES')`.
 */
module Reports {
  import opened Wrappers
  import opened Seqs
  import opened Text
  import opened Inventory
  import opened InventoryExit

  /** The filter form; `productId` is `"all"` when no product is chosen. */
  datatype ReportFilters = ReportFilters(
    productId: string,
    startDate: Option<int>,
    endDate: Option<int>,
    batchNumber: string)

  /** What "Limpiar Filtros" sets, and the initial state. */
  const ClearedFilters: ReportFilters := ReportFilters("all", None, None, "")

  /**
   * The product is the chosen one (or any), the batch number contains the
   * typed text whatever the case, and the entry date lies within the given
   * bounds, both inclusive.
   */
  predicate MatchesFilters(b: Batch, f: ReportFilters)
  {
    && (f.productId == "all" || b.productId == f.productId)
    && (f.batchNumber == "" || ContainsIgnoreCase(b.batchNumber, f.batchNumber))
    && (f.startDate.None? || f.startDate.value <= b.entryDate)
    && (f.endDate.None? || b.entryDate <= f.endDate.value)
  }

  function Matching(f: ReportFilters): Batch -> bool
  {
    (b: Batch) => MatchesFilters(b, f)
  }

  /** `filteredBatches`: the batches the filters let through, in list order. */
  function FilteredBatches(batches: seq<Batch>, f: ReportFilters): (r: seq<Batch>)
    ensures forall b :: b in r <==> b in batches && MatchesFilters(b, f)
    ensures IsSubseq(r, batches)
  {
    FilterIsSubseq(batches, Matching(f));
    Filter(batches, Matching(f))
  }

  /** With the filters cleared the report holds every batch, in order. */
  lemma ClearedFiltersKeepEverything(batches: seq<Batch>)
    ensures FilteredBatches(batches, ClearedFilters) == batches
  {
    FilterKeepsAll(batches, Matching(ClearedFilters));
  }

  /** Choosing a product, a batch-number text or a date range only narrows the report. */
  lemma FiltersOnlyNarrow(batches: seq<Batch>, f: ReportFilters)
    ensures IsSubseq(FilteredBatches(batches, f), batches)
    ensures forall b :: b in FilteredBatches(batches, f) ==>
      (f.productId != "all" ==> b.productId == f.productId)
      && (f.startDate.Some? ==> f.startDate.value <= b.entryDate)
      && (f.endDate.Some? ==> b.entryDate <= f.endDate.value)
      && ContainsIgnoreCase(b.batchNumber, f.batchNumber)
  {
    forall b | b in FilteredBatches(batches, f) && f.batchNumber == ""
      ensures ContainsIgnoreCase(b.batchNumber, f.batchNumber)
    {
      EmptyIsContained(b.batchNumber);
    }
  }

  // ---------------------------------------------------------------------------
  // Status.

  /**
   * The status of a batch in the report: up to 7 days critical, up to 30
   * attention, else normal. The export's ternary and `getExpirationBadge`
   * apply the same thresholds, so the CSV and the table always agree.
   */
  function ReportStatus(days: int): (s: ExpirationStatus)
    ensures s == Critical <==> days <= 7
    ensures s == Attention <==> 7 < days <= 30
    ensures s == Normal <==> 30 < days
  {
    if days <= 7 then Critical else if days <= 30 then Attention else Normal
  }

  /** The report's status is the dispatch screen's with "Urgente" folded into "Atención". */
  lemma ReportStatusFoldsUrgent(days: int)
    ensures ReportStatus(days) ==
      if GetExpirationStatus(days) == Urgent then Attention else GetExpirationStatus(days)
  {
  }

  // ---------------------------------------------------------------------------
  // Summary.

  /** `totalValue`: the units in the filtered batches. */
  function TotalValue(filtered: seq<Batch>): int
  {
    Sum(filtered, Quantity)
  }

  /** The product ids that occur in a list of batches. */
  function ProductIds(bs: seq<Batch>): (ids: set<string>)
    ensures forall id :: id in ids <==> exists b :: b in bs && b.productId == id
  {
    if bs == [] then {}
    else
      assert forall b :: b in bs <==> b == bs[0] || b in bs[1..];
      {bs[0].productId} + ProductIds(bs[1..])
  }

  /** `uniqueProducts`: the size of `new Set(filteredBatches.map(b => b.productId))`. */
  function UniqueProducts(filtered: seq<Batch>): nat
  {
    |ProductIds(filtered)|
  }

  /** There are never more products than batches, and some product as soon as there is a batch. */
  lemma {:induction false} UniqueProductsBounded(filtered: seq<Batch>)
    ensures UniqueProducts(filtered) <= |filtered|
    ensures filtered != [] ==> UniqueProducts(filtered) >= 1
    decreases |filtered|
  {
    if filtered != [] {
      UniqueProductsBounded(filtered[1..]);
      var rest := ProductIds(filtered[1..]);
      assert ProductIds(filtered) == {filtered[0].productId} + rest;
      assert |{filtered[0].productId} + rest| <= |{filtered[0].productId}| + |rest|;
      assert filtered[0].productId in ProductIds(filtered);
    }
  }

  function CriticalOn(today: int): Batch -> bool
  {
    (b: Batch) => DaysUntilExpiration(b.expirationDate, today) <= 7
  }

  /** `criticalBatches`: how many filtered batches have seven days or fewer left. */
  function CriticalCount(filtered: seq<Batch>, today: int): (n: nat)
    ensures n <= |filtered|
  {
    |Filter(filtered, CriticalOn(today))|
  }

  /** The critical count counts exactly the batches the export marks critical. */
  lemma CriticalCountMatchesStatus(filtered: seq<Batch>, today: int)
    ensures forall b :: b in Filter(filtered, CriticalOn(today)) <==>
      b in filtered && ReportStatus(DaysUntilExpiration(b.expirationDate, today)) == Critical
  {
  }

  /** Every filtered batch with stock adds to the total, so the total is positive once one has stock. */
  lemma TotalValuePositive(filtered: seq<Batch>)
    requires forall b :: b in filtered ==> b.quantity > 0
    ensures TotalValue(filtered) >= 0
    ensures TotalValue(filtered) == 0 <==> filtered == []
  {
    SumPositiveIsZeroIffEmpty(filtered, Quantity);
  }

  // ---------------------------------------------------------------------------
  // Table order and export.

  /**
   * The table sorts `filteredBatches` in place by entry date, oldest first;
   * the export, which reads the same array, writes the rows in that order.
   */
  function TableOrder(filtered: seq<Batch>): (r: seq<Batch>)
    ensures multiset(r) == multiset(filtered)
    ensures forall i, j :: 0 <= i < j < |r| ==> r[i].entryDate <= r[j].entryDate
    ensures forall d :: Filter(r, KeyIs(EntryDate, d)) == Filter(filtered, KeyIs(EntryDate, d))
  {
    var r := SortBy(filtered, EntryDate);
    assert forall i, j :: 0 <= i < j < |r| ==> EntryDate(r[i]) <= EntryDate(r[j]);
    forall d ensures Filter(r, KeyIs(EntryDate, d)) == Filter(filtered, KeyIs(EntryDate, d)) {
      SortByIsStable(filtered, EntryDate, d);
    }
    r
  }

  const CsvHeader: seq<string> := ["Producto", "Lote", "Cantidad", "Fecha Entrada", "Fecha Vencimiento", "Estado"]

  /** The fields of one exported batch. */
  function CsvRow(b: Batch, today: int, formatDate: int -> string): (row: seq<string>)
    ensures |row| == |CsvHeader|
  {
    [ b.productName,
      b.batchNumber,
      IntToString(b.quantity),
      formatDate(b.entryDate),
      formatDate(b.expirationDate),
      StatusText(ReportStatus(DaysUntilExpiration(b.expirationDate, today))) ]
  }

  /** `rows.map(row => row.join(','))`. */
  function CsvLines(bs: seq<Batch>, today: int, formatDate: int -> string): (lines: seq<string>)
    ensures |lines| == |bs|
    ensures forall k :: 0 <= k < |bs| ==> lines[k] == Join(CsvRow(bs[k], today, formatDate), ',')
  {
    if bs == [] then []
    else [Join(CsvRow(bs[0], today, formatDate), ',')] + CsvLines(bs[1..], today, formatDate)
  }

  /** `csvContent`: the header line and one line per batch, in table order, joined by newlines. */
  function CsvContent(filtered: seq<Batch>, today: int, formatDate: int -> string): string
  {
    Join([Join(CsvHeader, ',')] + CsvLines(TableOrder(filtered), today, formatDate), '\n')
  }

  /** No field of the batch, as the export writes it, holds character `c`. */
  predicate FieldsAvoid(b: Batch, formatDate: int -> string, c: char)
  {
    c !in b.productName && c !in b.batchNumber
    && c !in formatDate(b.entryDate) && c !in formatDate(b.expirationDate)
  }

  lemma StatusTextAvoids(s: ExpirationStatus, c: char)
    requires c == ',' || c == '\n'
    ensures c !in StatusText(s)
  {
  }

  lemma RowAvoids(b: Batch, today: int, formatDate: int -> string, c: char)
    requires c == ',' || c == '\n'
    requires FieldsAvoid(b, formatDate, c)
    ensures forall k :: 0 <= k < |CsvRow(b, today, formatDate)| ==> c !in CsvRow(b, today, formatDate)[k]
  {
    var row := CsvRow(b, today, formatDate);
    StatusTextAvoids(ReportStatus(DaysUntilExpiration(b.expirationDate, today)), c);
    assert c !in IntToString(b.quantity);
    forall k | 0 <= k < |row| ensures c !in row[k] {
      if k == 5 {
        assert row[5] == StatusText(ReportStatus(DaysUntilExpiration(b.expirationDate, today)));
      }
    }
  }

  /**
   * When no name, batch number or formatted date holds a line break, the CSV
   * splits into the header and exactly one line per filtered batch, in table
   * order.
   */
  lemma CsvHasOneLinePerBatch(filtered: seq<Batch>, today: int, formatDate: int -> string)
    requires forall b :: b in filtered ==> FieldsAvoid(b, formatDate, '\n')
    ensures var lines := Split(CsvContent(filtered, today, formatDate), '\n');
      && |lines| == 1 + |filtered|
      && lines[0] == Join(CsvHeader, ',')
      && forall k :: 0 <= k < |filtered| ==>
           lines[k + 1] == Join(CsvRow(TableOrder(filtered)[k], today, formatDate), ',')
  {
    var sorted := TableOrder(filtered);
    var all := [Join(CsvHeader, ',')] + CsvLines(sorted, today, formatDate);
    assert CsvContent(filtered, today, formatDate) == Join(all, '\n');
    assert |sorted| == |multiset(sorted)| == |multiset(filtered)| == |filtered|;
    LinesAvoidNewline(filtered, today, formatDate, all);
    SplitJoin(all, '\n');
    assert forall k :: 0 <= k < |filtered| ==> all[k + 1] == CsvLines(sorted, today, formatDate)[k];
  }

  lemma HeaderAvoidsNewline()
    ensures '\n' !in Join(CsvHeader, ',')
  {
    forall k | 0 <= k < |CsvHeader| ensures '\n' !in CsvHeader[k] {
      assert forall c :: c in CsvHeader[k] ==> c == ' ' || 'A' <= c <= 'z';
    }
    JoinAvoids(CsvHeader, ',', '\n');
  }

  lemma LinesAvoidNewline(filtered: seq<Batch>, today: int, formatDate: int -> string, all: seq<string>)
    requires forall b :: b in filtered ==> FieldsAvoid(b, formatDate, '\n')
    requires all == [Join(CsvHeader, ',')] + CsvLines(TableOrder(filtered), today, formatDate)
    ensures forall k :: 0 <= k < |all| ==> '\n' !in all[k]
  {
    var sorted := TableOrder(filtered);
    forall k | 0 <= k < |all| ensures '\n' !in all[k] {
      if k == 0 {
        HeaderAvoidsNewline();
      } else {
        assert sorted[k - 1] in multiset(filtered);
        RowAvoids(sorted[k - 1], today, formatDate, '\n');
        JoinAvoids(CsvRow(sorted[k - 1], today, formatDate), ',', '\n');
      }
    }
  }

  /**
   * When no field holds a comma, each line splits back into the six fields of
   * its batch; the export does no quoting, so this is what a spreadsheet reads.
   */
  lemma CsvLineSplitsIntoFields(b: Batch, today: int, formatDate: int -> string)
    requires FieldsAvoid(b, formatDate, ',')
    ensures Split(Join(CsvRow(b, today, formatDate), ','), ',') == CsvRow(b, today, formatDate)
  {
    RowAvoids(b, today, formatDate, ',');
    SplitJoin(CsvRow(b, today, formatDate), ',');
  }
}
