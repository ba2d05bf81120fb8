/** The product card's stock badge and the products page's pagination bar. */
module ProductsPage {
  import opened Wrappers
  import ProductDetailModal

  /** `getStockStatus` of the product card: a bare status tag. */
  function GetStockStatus(currentStock: int, minimumStock: int): (tag: string)
    ensures tag == "out-of-stock" <==> currentStock == 0
    ensures tag == "low-stock" <==> currentStock != 0 && currentStock <= minimumStock
    ensures tag == "good" <==> currentStock != 0 && currentStock > minimumStock
  {
    if currentStock == 0 then "out-of-stock"
    else if currentStock <= minimumStock then "low-stock"
    else "good"
  }

  /** The card and the detail modal classify every product alike. */
  lemma StatusMatchesModal(currentStock: int, minimumStock: int)
    ensures GetStockStatus(currentStock, minimumStock)
            == ProductDetailModal.GetStockStatus(currentStock, minimumStock).status
  {
  }

  /** `getStockColor`: one class string per status, with good as the default branch. */
  function GetStockColor(currentStock: int, minimumStock: int): string {
    match GetStockStatus(currentStock, minimumStock)
    case "out-of-stock" => "text-red-600 bg-red-100"
    case "low-stock" => "text-yellow-600 bg-yellow-100"
    case _ => "text-green-600 bg-green-100"
  }

  /** The three statuses get three distinct colours, so the colour determines the status. */
  lemma ColorDeterminesStatus(c1: int, m1: int, c2: int, m2: int)
    ensures GetStockColor(c1, m1) == GetStockColor(c2, m2)
            <==> GetStockStatus(c1, m1) == GetStockStatus(c2, m2)
  {
  }

  /** `data.pagination?.pages || 1`: a missing or zero page count becomes 1. */
  function TotalPages(pages: Option<int>): (n: int)
    ensures n != 0
    ensures pages.Some? && pages.value != 0 ==> n == pages.value
  {
    if pages.Some? && pages.value != 0 then pages.value else 1
  }

  /** `Array.from({ length: totalPages }, (_, i) => i + 1)` */
  function PageButtons(totalPages: int): (r: seq<int>)
    ensures |r| == (if totalPages < 0 then 0 else totalPages)
    ensures forall i :: 0 <= i < |r| ==> r[i] == i + 1
  {
    seq(if totalPages < 0 then 0 else totalPages, i => i + 1)
  }

  /** The bar is shown only when there is more than one page. */
  predicate BarVisible(totalPages: int) {
    totalPages > 1
  }

  predicate PreviousDisabled(currentPage: int) {
    currentPage == 1
  }

  predicate NextDisabled(currentPage: int, totalPages: int) {
    currentPage == totalPages
  }

  datatype Click = Previous | Next | Number(page: int)

  /** The page a click leads to; None when the button is disabled. */
  function Navigate(currentPage: int, totalPages: int, click: Click): Option<int> {
    match click
    case Previous => if PreviousDisabled(currentPage) then None else Some(currentPage - 1)
    case Next => if NextDisabled(currentPage, totalPages) then None else Some(currentPage + 1)
    case Number(p) => Some(p)
  }

  /**
   * The buttons are exactly the pages 1..totalPages, and from a page in that range every
   * enabled button leads to a page in that range.
   */
  lemma NavigationStaysInRange(currentPage: int, totalPages: int, click: Click)
    requires 1 <= currentPage <= totalPages
    requires click.Number? ==> click.page in PageButtons(totalPages)
    ensures forall p :: p in PageButtons(totalPages) <==> 1 <= p <= totalPages
    ensures Navigate(currentPage, totalPages, click).Some? ==>
      1 <= Navigate(currentPage, totalPages, click).value <= totalPages
    ensures Navigate(currentPage, totalPages, click).None? <==>
      (click == Previous && currentPage == 1) || (click == Next && currentPage == totalPages)
  {
    var buttons := PageButtons(totalPages);
    forall p ensures p in buttons <==> 1 <= p <= totalPages {
      if 1 <= p <= totalPages { assert buttons[p - 1] == p; }
    }
  }
}
