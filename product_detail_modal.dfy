/**
 * The product detail modal's stock classifier and the three stock-alert blocks it
 * renders on the stock tab.
 */
module ProductDetailModal {

  datatype StockLevel = OutOfStock | LowStock | Good

  /** The classifier's result: a status tag, a colour and a label. */
  datatype StockStatus = StockStatus(status: string, color: string, text: string)

  /** Zero stock is out of stock; otherwise stock at or below the minimum is low; otherwise good. */
  function Level(currentStock: int, minimumStock: int): (l: StockLevel)
    ensures l == OutOfStock <==> currentStock == 0
    ensures l == LowStock <==> currentStock != 0 && currentStock <= minimumStock
    ensures l == Good <==> currentStock != 0 && currentStock > minimumStock
  {
    if currentStock == 0 then OutOfStock
    else if currentStock <= minimumStock then LowStock
    else Good
  }

  /** `getStockStatus` */
  function GetStockStatus(currentStock: int, minimumStock: int): (s: StockStatus)
    ensures s.status == "out-of-stock" <==> currentStock == 0
    ensures s.status == "low-stock" <==> currentStock != 0 && currentStock <= minimumStock
    ensures s.status == "good" <==> currentStock != 0 && currentStock > minimumStock
  {
    match Level(currentStock, minimumStock)
    case OutOfStock => StockStatus("out-of-stock", "red", "Out of Stock")
    case LowStock => StockStatus("low-stock", "yellow", "Low Stock")
    case Good => StockStatus("good", "green", "In Stock")
  }

  /** The three alert blocks and the guard each is rendered under. */
  datatype Alert = OutOfStockAlert | LowStockWarning | StockLevelHealthy

  /** The alerts rendered, in page order. */
  function Alerts(currentStock: int, minimumStock: int): seq<Alert> {
    (if currentStock == 0 then [OutOfStockAlert] else [])
    + (if currentStock > 0 && currentStock <= minimumStock then [LowStockWarning] else [])
    + (if currentStock > minimumStock then [StockLevelHealthy] else [])
  }

  /**
   * For a stock and a minimum that are not negative, exactly one alert renders and it
   * agrees with the classifier: Out of Stock with out-of-stock, Low Stock Warning with
   * low-stock, Stock Level Healthy with good.
   */
  lemma AlertsAgreeWithStatus(currentStock: int, minimumStock: int)
    requires currentStock >= 0 && minimumStock >= 0
    ensures |Alerts(currentStock, minimumStock)| == 1
    ensures var a, s := Alerts(currentStock, minimumStock)[0], GetStockStatus(currentStock, minimumStock).status;
      && (a == OutOfStockAlert <==> s == "out-of-stock")
      && (a == LowStockWarning <==> s == "low-stock")
      && (a == StockLevelHealthy <==> s == "good")
  {
  }

  /** With a negative minimum a product with no stock shows two alerts at once. */
  lemma NegativeMinimumShowsTwoAlerts()
    ensures Alerts(0, -1) == [OutOfStockAlert, StockLevelHealthy]
  {
  }
}
