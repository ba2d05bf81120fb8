/**
 * The Product document: the stock fields the ledger reads and writes, the schema
 * constraints checked when a product is saved, and the pre-save hook.
 * Prices are whole numbers of the smallest currency unit.
 */
module ProductModel {
  import opened Wrappers
  import JsText

  datatype Status = Active | Inactive | Discontinued

  /** The schema's `status` enum. */
  function ParseStatus(s: string): Option<Status> {
    if s == "active" then Some(Active)
    else if s == "inactive" then Some(Inactive)
    else if s == "discontinued" then Some(Discontinued)
    else None
  }

  const DefaultCurrentStock := 0
  const DefaultMinimumStock := 10
  const DefaultMaximumStock := 1000
  const MaxNameLength := 100
  const MaxDescriptionLength := 1000

  datatype Product = Product(
    name: string,
    description: Option<string>,
    sku: string,
    category: string,
    price: int,
    costPrice: int,
    currentStock: int,
    minimumStock: int,
    maximumStock: int,
    status: Status,
    totalSold: int,
    lastRestocked: Option<int>,
    lastSold: Option<int>,
    createdAt: int,
    updatedAt: int,
    updatedBy: Option<string>)

  /** What a caller supplies when creating a product; None means the field was omitted. */
  datatype ProductDraft = ProductDraft(
    name: string,
    description: Option<string>,
    sku: string,
    category: string,
    price: Option<int>,
    costPrice: Option<int>,
    currentStock: Option<int>,
    minimumStock: Option<int>,
    maximumStock: Option<int>,
    status: Option<string>)

  datatype ProductField =
    | NameField | DescriptionField | SkuField | CategoryField | PriceField | CostPriceField
    | CurrentStockField | MinimumStockField | MaximumStockField | StatusField

  datatype ProductError =
    | InvalidFields(fields: set<ProductField>)
    | MinimumNotBelowMaximum
    | DuplicateKey

  function OrDefault(v: Option<int>, default: int): int {
    if v.Some? then v.value else default
  }

  predicate SkuChar(c: char) {
    'A' <= c <= 'Z' || '0' <= c <= '9' || c == '-'
  }

  /** `/^[A-Z0-9-]+$/` */
  predicate SkuPattern(sku: string) {
    sku != [] && forall i :: 0 <= i < |sku| ==> SkuChar(sku[i])
  }

  /** The SKU as stored: the `uppercase` setter runs before the pattern is checked. */
  function CastSku(sku: string): string {
    JsText.ToUpper(sku)
  }

  /**
   * A SKU is accepted exactly when it is non-empty and made of ASCII letters of either
   * case, digits and hyphens; the stored form has the letters upper-cased.
   */
  lemma SkuAcceptedIff(sku: string)
    ensures SkuPattern(CastSku(sku)) <==>
      sku != [] && forall i :: 0 <= i < |sku| ==>
        ('a' <= sku[i] <= 'z' || 'A' <= sku[i] <= 'Z' || '0' <= sku[i] <= '9' || sku[i] == '-')
  {
    var u := CastSku(sku);
    assert forall i :: 0 <= i < |sku| ==> u[i] == JsText.UpperChar(sku[i]);
  }

  /** The schema paths whose validators reject the draft once it has been cast. */
  function Violations(d: ProductDraft): set<ProductField> {
    var name := JsText.Trim(d.name);
    var sku := CastSku(d.sku);
    (if name == [] || |name| > MaxNameLength then {NameField} else {})
    + (if d.description.Some? && |d.description.value| > MaxDescriptionLength
       then {DescriptionField} else {})
    + (if !SkuPattern(sku) then {SkuField} else {})
    + (if d.category == "" then {CategoryField} else {})
    + (if d.price.None? || d.price.value < 0 then {PriceField} else {})
    + (if d.costPrice.None? || d.costPrice.value < 0 then {CostPriceField} else {})
    + (if OrDefault(d.currentStock, DefaultCurrentStock) < 0 then {CurrentStockField} else {})
    + (if OrDefault(d.minimumStock, DefaultMinimumStock) < 0 then {MinimumStockField} else {})
    + (if OrDefault(d.maximumStock, DefaultMaximumStock) < 1 then {MaximumStockField} else {})
    + (if d.status.Some? && ParseStatus(d.status.value).None? then {StatusField} else {})
  }

  /** The cast document: trimmed name, upper-cased SKU and the schema defaults. */
  function Build(d: ProductDraft, now: int): Product {
    var status := if d.status.Some? && ParseStatus(d.status.value).Some?
                  then ParseStatus(d.status.value).value else Active;
    Product(
      JsText.Trim(d.name), d.description, CastSku(d.sku), d.category,
      OrDefault(d.price, 0), OrDefault(d.costPrice, 0),
      OrDefault(d.currentStock, DefaultCurrentStock),
      OrDefault(d.minimumStock, DefaultMinimumStock),
      OrDefault(d.maximumStock, DefaultMaximumStock),
      status, 0, None, None, now, now, None)
  }

  /** What the pre-save hook hands back: the error passed to `next`, if any, and the document. */
  datatype HookResult = HookResult(error: Option<ProductError>, doc: Product)

  /**
   * Pre-save hook, as written: it reports an error when minimumStock >= maximumStock,
   * but having no `return` it goes on to stamp `updatedAt` in both cases.
   */
  function PreSave(p: Product, now: int): (r: HookResult)
    ensures r.error.Some? <==> p.minimumStock >= p.maximumStock
    ensures r.error.Some? ==> r.error.value == MinimumNotBelowMaximum
    ensures r.doc.updatedAt == now && r.doc.(updatedAt := p.updatedAt) == p
  {
    var err := if p.minimumStock >= p.maximumStock then Some(MinimumNotBelowMaximum) else None;
    HookResult(err, p.(updatedAt := now))
  }

  /** The field bounds every stored product satisfies. */
  predicate StockFieldsValid(p: Product) {
    p.currentStock >= 0 && p.minimumStock >= 0 && p.maximumStock >= 1
  }

  predicate SchemaValid(p: Product) {
    && StockFieldsValid(p)
    && p.name == JsText.Trim(p.name) && p.name != [] && |p.name| <= MaxNameLength
    && (p.description.Some? ==> |p.description.value| <= MaxDescriptionLength)
    && SkuPattern(p.sku) && p.category != ""
    && p.price >= 0 && p.costPrice >= 0
  }

  /**
   * Creating a product: cast, validate, then run the pre-save hook, whose error
   * (the first call to `next`) decides the save.
   */
  function Create(d: ProductDraft, now: int): Result<Product, ProductError> {
    var v := Violations(d);
    if v != {} then Err(InvalidFields(v))
    else
      var hook := PreSave(Build(d, now), now);
      if hook.error.Some? then Err(hook.error.value) else Ok(hook.doc)
  }

  /**
   * Creation succeeds exactly when no validator fails and minimumStock < maximumStock
   * (after defaults); the stored product then satisfies the schema, has a minimum below
   * its maximum, starts with nothing sold and no restock or sale dates.
   */
  lemma CreateSpec(d: ProductDraft, now: int)
    ensures Create(d, now).Ok? <==>
      Violations(d) == {} &&
      OrDefault(d.minimumStock, DefaultMinimumStock) < OrDefault(d.maximumStock, DefaultMaximumStock)
    ensures Create(d, now).Ok? ==>
      var p := Create(d, now).value;
      && SchemaValid(p) && p.minimumStock < p.maximumStock
      && p.totalSold == 0 && p.lastRestocked.None? && p.lastSold.None?
      && p.createdAt == now && p.updatedAt == now
  {
    if Violations(d) == {} {
      var p := Build(d, now);
      assert NameField !in Violations(d);
      assert SkuField !in Violations(d);
      assert PriceField !in Violations(d) && CostPriceField !in Violations(d);
      JsText.TrimShape(d.name);
    }
  }

  /**
   * Omitted stock fields and status take their defaults: 0 in stock, minimum 10,
   * maximum 1000, status active.
   */
  lemma CreateDefaults(d: ProductDraft, now: int)
    requires d.currentStock.None? && d.minimumStock.None? && d.maximumStock.None? && d.status.None?
    requires Violations(d) == {}
    ensures Create(d, now).Ok?
    ensures var p := Create(d, now).value;
      p.currentStock == 0 && p.minimumStock == 10 && p.maximumStock == 1000 && p.status == Active
  {
  }

  /** A minimum at or above the maximum is refused even when every field is valid. */
  lemma CreateRejectsInvertedBounds(d: ProductDraft, now: int)
    requires OrDefault(d.minimumStock, 10) >= OrDefault(d.maximumStock, 1000)
    ensures Create(d, now).Err?
  {
  }
}
