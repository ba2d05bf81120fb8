/**
 * The inventory page: the stock-update form's preview of the new balance, the product
 * search and low-stock filters, and the stock label of each product row.
 */
module InventoryPage {
  import opened Wrappers
  import opened JsText
  import opened Seqs
  import opened InventoryMovementModel
  import ProductModel
  import Paging
  import MovementRoute
  import ProductDetailModal

  /** `parseInt(formData.quantity) || 0`: a quantity field without leading digits counts as 0. */
  function FormQuantity(text: string): (q: int)
    ensures ParseInt(text).None? ==> q == 0
    ensures ParseInt(text).Some? ==> q == ParseInt(text).value
  {
    match ParseInt(text)
    case None => 0
    case Some(v) => v
  }

  /** An empty quantity field, and one holding a decimal number, preview as those numbers. */
  lemma FormQuantityExamples(n: int)
    ensures FormQuantity("") == 0
    ensures FormQuantity(IntToString(n)) == n
  {
    ParseIntNoDigits("");
    ParseIntRoundTrip(n);
  }

  /** `calculateNewStock` as written: a type other than in, out and adjustment previews no change. */
  function PreviewStock(currentStock: int, typeTag: string, quantityText: string): int {
    var q := FormQuantity(quantityText);
    if typeTag == "in" then currentStock + q
    else if typeTag == "out" then MovementRoute.Max(0, currentStock - q)
    else if typeTag == "adjustment" then q
    else currentStock
  }

  /**
   * The preview never signals a refusal: a stock-out larger than the stock, which the
   * server refuses with "Insufficient stock", previews as 0. From a stock and a quantity
   * that are not negative, no preview is negative.
   */
  lemma PreviewOfRefusedStockOut(currentStock: int, typeTag: string, quantityText: string)
    ensures FormQuantity(quantityText) > currentStock ==>
      && PreviewStock(currentStock, "out", quantityText) == 0
      && MovementRoute.NextStock(Out, currentStock, FormQuantity(quantityText)).None?
    ensures currentStock >= 0 && FormQuantity(quantityText) >= 0 ==>
      PreviewStock(currentStock, typeTag, quantityText) >= 0
  {
  }

  /**
   * The preview of a transfer shows the stock unchanged, while the server takes the
   * quantity off: 10 in stock, transfer 5, the form shows 10 and the server writes 5.
   */
  lemma TransferPreviewDisagrees()
    ensures PreviewStock(10, "transfer", "5") == 10
    ensures MovementRoute.NextStock(Transfer, 10, 5) == Some(5)
  {
    assert FormQuantity("5") == 5 by {
      assert "5" == IntToString(5);
      ParseIntRoundTrip(5);
    }
  }

  /** The preview with the server's transfer rule. */
  function PreviewStockCorrected(currentStock: int, typeTag: string, quantityText: string): int {
    var q := FormQuantity(quantityText);
    if typeTag == "in" then currentStock + q
    else if typeTag == "out" then MovementRoute.Max(0, currentStock - q)
    else if typeTag == "adjustment" then q
    else if typeTag == "transfer" then MovementRoute.Max(0, currentStock - q)
    else currentStock
  }

  /**
   * For each of the four movement types, whenever the server's balance rule accepts the
   * quantity, the corrected preview shows the balance the server will write; it differs
   * from the preview as written only on transfers.
   */
  lemma PreviewMatchesServer(currentStock: int, typeTag: string, quantityText: string)
    ensures ParseType(typeTag).Some? ==>
      var next := MovementRoute.NextStock(ParseType(typeTag).value, currentStock, FormQuantity(quantityText));
      next.Some? ==> PreviewStockCorrected(currentStock, typeTag, quantityText) == next.value
    ensures typeTag != "transfer" ==>
      PreviewStockCorrected(currentStock, typeTag, quantityText) == PreviewStock(currentStock, typeTag, quantityText)
  {
    if ParseType(typeTag).Some? {
      ParseTypeTag(ParseType(typeTag).value);
    }
  }

  /**
   * The body the stock-update form posts, as written: every form field as entered (the
   * reason select starts at "" and is not required), the quantity through `parseInt`,
   * whose NaN travels as null.
   */
  function FormRequest(
    productId: string, typeTag: string, quantityText: string, reason: string,
    reference: string, notes: string): MovementRoute.MovementRequest
  {
    MovementRoute.MovementRequest(productId, typeTag, ParseInt(quantityText), Some(reason), Some(reference), Some(notes))
  }

  /**
   * As written, an update posted without choosing a reason never succeeds: once it gets
   * past the route's checks, the record schema refuses the empty reason, which is not one
   * of the twelve, and the route answers 500.
   */
  lemma EmptyReasonRejected(
    products: map<string, ProductModel.Product>, log: seq<Movement>, productId: string,
    typeTag: string, quantityText: string, reference: string, notes: string, userId: string, now: int)
    ensures var req := FormRequest(productId, typeTag, quantityText, "", reference, notes);
      var o := MovementRoute.Post(products, log, req, userId, now);
      && !o.response.Ok?
      && (!MovementRoute.MissingFields(req) && productId in products && ParseType(typeTag).Some?
          && MovementRoute.NextStock(ParseType(typeTag).value, products[productId].currentStock, req.quantity.value).Some?
          ==> o.response.Err? && o.response.error.RecordRejected?
              && ReasonField in o.response.error.fields
              && MovementRoute.HttpStatus(o.response.error) == 500)
  {
    var req := FormRequest(productId, typeTag, quantityText, "", reference, notes);
    assert "" !in Reasons;
    MovementRoute.PostReasonChecked(products, log, req, userId, now);
    MovementRoute.PostSucceedsIff(products, log, req, userId, now);
    if MovementRoute.Post(products, log, req, userId, now).response.Ok? {
      var t := ParseType(typeTag).value;
      var previous := products[productId].currentStock;
      var next := MovementRoute.NextStock(t, previous, req.quantity.value).value;
      SchemaValidIff(MovementRoute.Candidate(log, req, t, previous, next, userId, now));
    }
  }

  /** The body with an unselected reason left out, so that the schema sees no reason at all. */
  function FormRequestCorrected(
    productId: string, typeTag: string, quantityText: string, reason: string,
    reference: string, notes: string): MovementRoute.MovementRequest
  {
    MovementRoute.MovementRequest(productId, typeTag, ParseInt(quantityText),
                                  if reason == "" then None else Some(reason), Some(reference), Some(notes))
  }

  /** With the corrected body, neither an unselected reason nor one of the listed reasons is ever the cause of a refusal. */
  lemma ReasonNeverRejectsCorrected(
    products: map<string, ProductModel.Product>, log: seq<Movement>, productId: string,
    typeTag: string, quantityText: string, reason: string, reference: string, notes: string,
    userId: string, now: int)
    requires reason == "" || reason in Reasons
    ensures var o := MovementRoute.Post(products, log,
                       FormRequestCorrected(productId, typeTag, quantityText, reason, reference, notes), userId, now);
      !(o.response.Err? && o.response.error.RecordRejected? && ReasonField in o.response.error.fields)
  {
    MovementRoute.PostReasonChecked(products, log,
      FormRequestCorrected(productId, typeTag, quantityText, reason, reference, notes), userId, now);
  }

  /**
   * As written, a well-formed restock of a non-negative stock with no reason chosen, and
   * the reference and notes left empty, is refused with 500 for the reason alone.
   */
  lemma FormWithoutReasonRefused(
    products: map<string, ProductModel.Product>, log: seq<Movement>, productId: string,
    quantityText: string, userId: string, now: int)
    requires productId in products && productId != "" && userId != ""
    requires products[productId].currentStock >= 0
    requires ParseInt(quantityText).Some? && ParseInt(quantityText).value >= 1
    ensures MovementRoute.Post(products, log, FormRequest(productId, "in", quantityText, "", "", ""), userId, now).response
            == Err(MovementRoute.RecordRejected({ReasonField}))
  {
    assert "" !in Reasons;
    MovementRoute.PostRefusedForReasonAlone(products, log, FormRequest(productId, "in", quantityText, "", "", ""), userId, now);
  }

  /** With the corrected body the same restock succeeds and adds the quantity to the stock. */
  lemma FormWithoutReasonCorrected(
    products: map<string, ProductModel.Product>, log: seq<Movement>, productId: string,
    quantityText: string, userId: string, now: int)
    requires productId in products && productId != "" && userId != ""
    requires products[productId].currentStock >= 0
    requires ParseInt(quantityText).Some? && ParseInt(quantityText).value >= 1
    ensures var o := MovementRoute.Post(products, log, FormRequestCorrected(productId, "in", quantityText, "", "", ""), userId, now);
      && o.response.Ok?
      && o.products[productId].currentStock == products[productId].currentStock + ParseInt(quantityText).value
  {
    var q := ParseInt(quantityText).value;
    var previous := products[productId].currentStock;
    var fixed := FormRequestCorrected(productId, "in", quantityText, "", "", "");
    MovementRoute.PostSucceedsIff(products, log, fixed, userId, now);
    SchemaValidIff(MovementRoute.Candidate(log, fixed, In, previous, previous + q, userId, now));
    MovementRoute.PostStockIn(products, log, fixed, userId, now);
  }

  /** A product row matches the search when its name or SKU contains the term, ignoring case. */
  predicate MatchesSearch(searchTerm: string, p: ProductModel.Product) {
    IncludesIgnoreCase(p.name, searchTerm) || IncludesIgnoreCase(p.sku, searchTerm)
  }

  /** `filteredProducts` */
  function FilteredProducts(products: seq<ProductModel.Product>, searchTerm: string): seq<ProductModel.Product> {
    Filter(products, p => MatchesSearch(searchTerm, p))
  }

  predicate IsLowStock(p: ProductModel.Product) {
    p.currentStock <= p.minimumStock
  }

  /** `lowStockProducts` */
  function LowStockProducts(filtered: seq<ProductModel.Product>): seq<ProductModel.Product> {
    Filter(filtered, IsLowStock)
  }

  /**
   * The filtered list keeps, in order, exactly the products whose name or SKU contains the
   * term case-insensitively; an empty term keeps every product; the low-stock list is
   * exactly the filtered products at or below their minimum.
   */
  lemma ProductFiltersSpec(products: seq<ProductModel.Product>, searchTerm: string)
    ensures var filtered := FilteredProducts(products, searchTerm);
      && (forall p :: p in filtered <==> p in products && MatchesSearch(searchTerm, p))
      && SubsequenceAt(filtered, products, KeptIndices(products, p => MatchesSearch(searchTerm, p)))
      && (searchTerm == "" ==> filtered == products)
      && (forall p :: p in LowStockProducts(filtered) <==> p in filtered && p.currentStock <= p.minimumStock)
  {
    var keep := p => MatchesSearch(searchTerm, p);
    FilterMembers(products, keep);
    FilterIsSubsequence(products, keep);
    FilterMembers(FilteredProducts(products, searchTerm), IsLowStock);
    if searchTerm == "" {
      forall i | 0 <= i < |products| ensures keep(products[i]) {
        IncludesEmpty(ToLower(products[i].name));
      }
      FilterKeepsAll(products, keep);
    }
  }

  /** `filteredProducts.slice(0, 10)`: the rows of the table. */
  function Rows(filtered: seq<ProductModel.Product>): (rows: seq<ProductModel.Product>)
    ensures |rows| <= 10 && |rows| <= |filtered|
    ensures rows == filtered[..|rows|]
    ensures |filtered| >= 10 ==> |rows| == 10
    ensures |filtered| < 10 ==> rows == filtered
  {
    Paging.Slice(filtered, 0, 10)
  }

  /** The stock badge of a row: out of stock at zero, low at or below the minimum, else in stock. */
  function RowLabel(currentStock: int, minimumStock: int): string {
    var isLowStock := currentStock <= minimumStock;
    var isOutOfStock := currentStock == 0;
    if isOutOfStock then "Out of Stock" else if isLowStock then "Low Stock" else "In Stock"
  }

  /** The row label is the label the detail modal's classifier gives the same product. */
  lemma RowLabelMatchesModal(currentStock: int, minimumStock: int)
    ensures RowLabel(currentStock, minimumStock)
            == ProductDetailModal.GetStockStatus(currentStock, minimumStock).text
    ensures RowLabel(currentStock, minimumStock) == "Out of Stock" <==> currentStock == 0
    ensures RowLabel(currentStock, minimumStock) == "Low Stock" <==> currentStock != 0 && currentStock <= minimumStock
    ensures RowLabel(currentStock, minimumStock) == "In Stock" <==> currentStock != 0 && currentStock > minimumStock
  {
  }
}
