/**
 * The activities page: the movement history as the client filters it (search, type,
 * reason, date range), the active-filter badge, and the page slicing with its
 * "Showing X to Y" line.
 */
module ActivitiesPage {
  import opened Wrappers
  import opened JsText
  import opened Seqs
  import opened Paging
  import InventoryMovementModel
  import ProductModel

  /** A movement as the page receives it, with the product and user populated. */
  datatype Activity = Activity(
    productName: Option<string>,
    productSku: Option<string>,
    userName: Option<string>,
    reference: Option<string>,
    typeTag: string,
    reason: Option<string>,
    timestamp: int)

  /** `populate('productId', 'name sku').populate('userId', 'name')`; a missing document populates to null. */
  function ActivityOf(
    m: InventoryMovementModel.Movement, products: map<string, ProductModel.Product>,
    userNames: map<string, string>): (a: Activity)
    ensures a.timestamp == m.timestamp && a.reference == m.reference && a.reason == m.reason
    ensures a.typeTag == InventoryMovementModel.TypeTag(m.movementType)
    ensures a.productName.Some? <==> m.productId in products
    ensures a.userName.Some? <==> m.userId in userNames
  {
    Activity(
      if m.productId in products then Some(products[m.productId].name) else None,
      if m.productId in products then Some(products[m.productId].sku) else None,
      if m.userId in userNames then Some(userNames[m.userId]) else None,
      m.reference, InventoryMovementModel.TypeTag(m.movementType), m.reason, m.timestamp)
  }

  /** The filter panel's values; "" means the filter is off. */
  datatype Filters = Filters(movementType: string, reason: string, userId: string, dateFrom: string, dateTo: string)

  /** `handleReset` */
  const NoFilters := Filters("", "", "", "", "")

  // ---------------------------------------------------------------------------------
  // Dates

  const DayMs := 86_400_000

  /** `setHours(23, 59, 59, 999)`: the last millisecond of the day holding t (days counted in UTC). */
  function EndOfDay(t: int): int {
    t - t % DayMs + DayMs - 1
  }

  /** The end of the day is on the same day, no earlier than t, and no instant of that day is later. */
  lemma EndOfDaySpec(t: int, x: int)
    ensures EndOfDay(t) >= t
    ensures EndOfDay(t) / DayMs == t / DayMs
    ensures x / DayMs == t / DayMs ==> x <= EndOfDay(t)
  {
    var d := t / DayMs;
    assert t == d * DayMs + t % DayMs;
    assert EndOfDay(t) == d * DayMs + (DayMs - 1);
    if x / DayMs == d {
      assert x == d * DayMs + x % DayMs;
    }
  }

  // ---------------------------------------------------------------------------------
  // The filter stages

  /** The search: product name, SKU, user name or reference contains the term, ignoring case. */
  predicate SearchHit(term: string, a: Activity) {
    || (a.productName.Some? && IncludesIgnoreCase(a.productName.value, term))
    || (a.productSku.Some? && IncludesIgnoreCase(a.productSku.value, term))
    || (a.userName.Some? && IncludesIgnoreCase(a.userName.value, term))
    || (a.reference.Some? && IncludesIgnoreCase(a.reference.value, term))
  }

  predicate SearchKeeps(term: string, a: Activity) {
    term == "" || SearchHit(term, a)
  }

  predicate TypeKeeps(f: Filters, a: Activity) {
    f.movementType == "" || a.typeTag == f.movementType
  }

  predicate ReasonKeeps(f: Filters, a: Activity) {
    f.reason == "" || a.reason == Some(f.reason)
  }

  /** `new Date(timestamp) >= new Date(dateFrom)`; an unparsable date compares false. */
  predicate FromKeeps(f: Filters, parseDate: string -> Option<int>, a: Activity) {
    f.dateFrom == "" || (parseDate(f.dateFrom).Some? && a.timestamp >= parseDate(f.dateFrom).value)
  }

  /** `new Date(timestamp) <= end of the dateTo day` */
  predicate ToKeeps(f: Filters, parseDate: string -> Option<int>, a: Activity) {
    f.dateTo == "" || (parseDate(f.dateTo).Some? && a.timestamp <= EndOfDay(parseDate(f.dateTo).value))
  }

  /** The first k stages, in the order `applyFilters` runs them. */
  function UpTo(k: nat, term: string, f: Filters, parseDate: string -> Option<int>): Activity -> bool {
    a =>
      && (k < 1 || SearchKeeps(term, a))
      && (k < 2 || TypeKeeps(f, a))
      && (k < 3 || ReasonKeeps(f, a))
      && (k < 4 || FromKeeps(f, parseDate, a))
      && (k < 5 || ToKeeps(f, parseDate, a))
  }

  /** The filtered activities: those every stage keeps, in their original order. */
  function Filtered(activities: seq<Activity>, term: string, f: Filters, parseDate: string -> Option<int>): seq<Activity> {
    Filter(activities, UpTo(5, term, f, parseDate))
  }

  /** One more stage: either it narrows the list, or its filter is off and it keeps it. */
  lemma {:induction false} NextStage(
    activities: seq<Activity>, k: nat, term: string, f: Filters, parseDate: string -> Option<int>,
    on: bool, stage: Activity -> bool)
    requires 1 <= k <= 5
    requires on ==> forall a :: UpTo(k, term, f, parseDate)(a) == (UpTo(k - 1, term, f, parseDate)(a) && stage(a))
    requires !on ==> forall a :: UpTo(k, term, f, parseDate)(a) == UpTo(k - 1, term, f, parseDate)(a)
    ensures on ==> Filter(Filter(activities, UpTo(k - 1, term, f, parseDate)), stage)
                   == Filter(activities, UpTo(k, term, f, parseDate))
    ensures !on ==> Filter(activities, UpTo(k - 1, term, f, parseDate))
                    == Filter(activities, UpTo(k, term, f, parseDate))
  {
    if on {
      FilterCompose(activities, UpTo(k - 1, term, f, parseDate), stage, UpTo(k, term, f, parseDate));
    } else {
      FilterExt(activities, UpTo(k - 1, term, f, parseDate), UpTo(k, term, f, parseDate));
    }
  }

  /**
   * `applyFilters`: each filter that is on narrows the list in turn; the result is the
   * list of activities every stage keeps.
   */
  method ApplyFilters(activities: seq<Activity>, searchTerm: string, filters: Filters, parseDate: string -> Option<int>)
    returns (filtered: seq<Activity>)
    ensures filtered == Filtered(activities, searchTerm, filters, parseDate)
  {
    FilterKeepsAll(activities, UpTo(0, searchTerm, filters, parseDate));
    filtered := activities;

    var bySearch := (a: Activity) => SearchHit(searchTerm, a);
    NextStage(activities, 1, searchTerm, filters, parseDate, searchTerm != "", bySearch);
    if searchTerm != "" {
      filtered := Filter(filtered, bySearch);
    }

    var byType := (a: Activity) => a.typeTag == filters.movementType;
    NextStage(activities, 2, searchTerm, filters, parseDate, filters.movementType != "", byType);
    if filters.movementType != "" {
      filtered := Filter(filtered, byType);
    }

    var byReason := (a: Activity) => a.reason == Some(filters.reason);
    NextStage(activities, 3, searchTerm, filters, parseDate, filters.reason != "", byReason);
    if filters.reason != "" {
      filtered := Filter(filtered, byReason);
    }

    var fromDate := parseDate(filters.dateFrom);
    var byFrom := (a: Activity) => fromDate.Some? && a.timestamp >= fromDate.value;
    NextStage(activities, 4, searchTerm, filters, parseDate, filters.dateFrom != "", byFrom);
    if filters.dateFrom != "" {
      filtered := Filter(filtered, byFrom);
    }

    var toDate := parseDate(filters.dateTo);
    var byTo := (a: Activity) => toDate.Some? && a.timestamp <= EndOfDay(toDate.value);
    NextStage(activities, 5, searchTerm, filters, parseDate, filters.dateTo != "", byTo);
    if filters.dateTo != "" {
      filtered := Filter(filtered, byTo);
    }
  }

  /**
   * The filtered list is an order-preserving subsequence of the activities holding exactly
   * those that pass every filter that is on: the filters combine by AND.
   */
  lemma FilteredSpec(activities: seq<Activity>, term: string, f: Filters, parseDate: string -> Option<int>)
    ensures SubsequenceAt(Filtered(activities, term, f, parseDate), activities,
                          KeptIndices(activities, UpTo(5, term, f, parseDate)))
    ensures forall a :: a in Filtered(activities, term, f, parseDate) <==>
      && a in activities
      && (term != "" ==> SearchHit(term, a))
      && (f.movementType != "" ==> a.typeTag == f.movementType)
      && (f.reason != "" ==> a.reason == Some(f.reason))
      && (f.dateFrom != "" ==> parseDate(f.dateFrom).Some? && a.timestamp >= parseDate(f.dateFrom).value)
      && (f.dateTo != "" ==> parseDate(f.dateTo).Some? && a.timestamp <= EndOfDay(parseDate(f.dateTo).value))
  {
    FilterIsSubsequence(activities, UpTo(5, term, f, parseDate));
    FilterMembers(activities, UpTo(5, term, f, parseDate));
  }

  /** With no search term and every filter off, nothing is filtered out. */
  lemma NoFiltersKeepEverything(activities: seq<Activity>, parseDate: string -> Option<int>)
    ensures Filtered(activities, "", NoFilters, parseDate) == activities
  {
    FilterKeepsAll(activities, UpTo(5, "", NoFilters, parseDate));
  }

  /**
   * The date range is inclusive: with both dates set, an activity stamped from the start
   * instant of dateFrom up to any instant of the dateTo day passes the date stages, and
   * one stamped later than that day does not.
   */
  lemma DateRangeInclusive(f: Filters, parseDate: string -> Option<int>, a: Activity)
    requires f.dateFrom != "" && f.dateTo != ""
    requires parseDate(f.dateFrom).Some? && parseDate(f.dateTo).Some?
    ensures var from, to := parseDate(f.dateFrom).value, parseDate(f.dateTo).value;
      && (a.timestamp >= from && a.timestamp / DayMs == to / DayMs ==>
            FromKeeps(f, parseDate, a) && ToKeeps(f, parseDate, a))
      && (a.timestamp / DayMs > to / DayMs ==> !ToKeeps(f, parseDate, a))
  {
    var to := parseDate(f.dateTo).value;
    EndOfDaySpec(to, a.timestamp);
    if a.timestamp / DayMs > to / DayMs {
      assert EndOfDay(to) / DayMs == to / DayMs;
      if a.timestamp <= EndOfDay(to) {
        DivMono(a.timestamp, EndOfDay(to));
      }
    }
  }

  lemma DivMono(x: int, y: int)
    requires x <= y
    ensures x / DayMs <= y / DayMs
  {
  }

  // ---------------------------------------------------------------------------------
  // The filter badge

  /** `Object.values(filters)` */
  function Values(f: Filters): seq<string> {
    [f.movementType, f.reason, f.userId, f.dateFrom, f.dateTo]
  }

  /** `getActiveFiltersCount` */
  function ActiveFiltersCount(f: Filters): int {
    |Filter(Values(f), v => v != "")|
  }

  function Flag(on: bool): int {
    if on then 1 else 0
  }

  /**
   * The badge counts the filter values that are not empty, at most five; after a reset it
   * shows none. The user filter is counted although no stage applies it.
   */
  lemma ActiveFiltersCountSpec(f: Filters)
    ensures ActiveFiltersCount(f) == Flag(f.movementType != "") + Flag(f.reason != "") + Flag(f.userId != "")
                                     + Flag(f.dateFrom != "") + Flag(f.dateTo != "")
    ensures 0 <= ActiveFiltersCount(f) <= 5
    ensures ActiveFiltersCount(NoFilters) == 0
  {
    var vs := Values(f);
    var p := v => v != "";
    assert vs == [vs[0]] + [vs[1]] + [vs[2]] + [vs[3]] + [vs[4]];
    FilterAppend([vs[0]] + [vs[1]] + [vs[2]] + [vs[3]], [vs[4]], p);
    FilterAppend([vs[0]] + [vs[1]] + [vs[2]], [vs[3]], p);
    FilterAppend([vs[0]] + [vs[1]], [vs[2]], p);
    FilterAppend([vs[0]], [vs[1]], p);
    var none := Values(NoFilters);
    assert none == [none[0]] + [none[1]] + [none[2]] + [none[3]] + [none[4]];
    FilterAppend([none[0]] + [none[1]] + [none[2]] + [none[3]], [none[4]], p);
    FilterAppend([none[0]] + [none[1]] + [none[2]], [none[3]], p);
    FilterAppend([none[0]] + [none[1]], [none[2]], p);
    FilterAppend([none[0]], [none[1]], p);
  }

  /** The user filter changes the badge but never the list. */
  lemma UserFilterIgnored(activities: seq<Activity>, term: string, f: Filters, user: string, parseDate: string -> Option<int>)
    ensures Filtered(activities, term, f.(userId := user), parseDate) == Filtered(activities, term, f, parseDate)
  {
    FilterExt(activities, UpTo(5, term, f.(userId := user), parseDate), UpTo(5, term, f, parseDate));
  }

  // ---------------------------------------------------------------------------------
  // Pages

  const ItemsPerPage := 20
  /** The limit the page asks the movement route for. */
  const FetchLimit := 100

  /** `paginatedActivities` */
  function Paginated(filtered: seq<Activity>, currentPage: int): seq<Activity> {
    PageOf(filtered, currentPage, ItemsPerPage)
  }

  /** `Math.ceil(filteredActivities.length / itemsPerPage)`: the number of page buttons. */
  function PageCount(n: nat): int {
    CeilDiv(n, ItemsPerPage)
  }

  /** The numbers of "Showing X to Y of N". */
  function ShowingFrom(currentPage: int): int {
    (currentPage - 1) * ItemsPerPage + 1
  }

  function ShowingTo(currentPage: int, n: nat): int {
    Min(currentPage * ItemsPerPage, n)
  }

  /**
   * A page from 1 holds at most 20 activities. When it is shown (it is not empty), it is
   * exactly the activities numbered X to Y of the filtered list, counting from 1, with
   * 1 <= X <= Y <= N.
   */
  lemma ShowingRange(filtered: seq<Activity>, currentPage: int)
    requires currentPage >= 1
    ensures |Paginated(filtered, currentPage)| <= ItemsPerPage
    ensures Paginated(filtered, currentPage) != [] ==>
      var x, y := ShowingFrom(currentPage), ShowingTo(currentPage, |filtered|);
      && 1 <= x <= y <= |filtered|
      && Paginated(filtered, currentPage) == filtered[x - 1..y]
      && |Paginated(filtered, currentPage)| == y - x + 1
  {
    PageContents(filtered, currentPage, ItemsPerPage);
    MulStep(currentPage, ItemsPerPage);
  }

  /**
   * The pages 1..PageCount(N), read in order, are the filtered list: every activity is on
   * exactly one page, every one of those pages is non-empty, and later pages are empty.
   */
  lemma PagesCoverFiltered(filtered: seq<Activity>)
    ensures PageCount(|filtered|) >= 0
    ensures FirstPages(filtered, ItemsPerPage, PageCount(|filtered|)) == filtered
    ensures forall p :: 1 <= p <= PageCount(|filtered|) ==> Paginated(filtered, p) != []
    ensures forall p :: p > PageCount(|filtered|) ==> Paginated(filtered, p) == []
  {
    PagesPartition(filtered, ItemsPerPage);
  }

  /**
   * What the movement route serves for `page=currentPage&limit=100`: that page of 100 of
   * the history, newest first.
   */
  function Fetched(newestFirst: seq<Activity>, currentPage: int): seq<Activity> {
    PageOf(newestFirst, currentPage, FetchLimit)
  }

  /**
   * The list shown as written: page p of 20 of the filtered activities of page p of 100
   * of the history; the current page selects both pages.
   */
  function ShownAsWritten(
    newestFirst: seq<Activity>, currentPage: int, term: string, f: Filters,
    parseDate: string -> Option<int>): seq<Activity>
  {
    Paginated(Filtered(Fetched(newestFirst, currentPage), term, f, parseDate), currentPage)
  }

  /**
   * With 21 to 100 movements and no filter, page 1 offers a button for page 2, but page 2
   * shows nothing: the second fetch asks for movements 101 onwards.
   */
  lemma PageTwoShowsNothing(newestFirst: seq<Activity>, parseDate: string -> Option<int>)
    requires 21 <= |newestFirst| <= 100
    ensures PageCount(|Filtered(Fetched(newestFirst, 1), "", NoFilters, parseDate)|) >= 2
    ensures ShownAsWritten(newestFirst, 2, "", NoFilters, parseDate) == []
    ensures Paginated(newestFirst, 2) != []
  {
    PageContents(newestFirst, 1, FetchLimit);
    assert Fetched(newestFirst, 1) == newestFirst;
    NoFiltersKeepEverything(newestFirst, parseDate);
    PageContents(newestFirst, 2, FetchLimit);
    assert Fetched(newestFirst, 2) == [];
    NoFiltersKeepEverything([], parseDate);
    PageContents<Activity>([], 2, ItemsPerPage);
    PageWithinCeil(newestFirst, 2, ItemsPerPage);
  }

  /**
   * The list shown with a single fetch: the newest 100 movements are fetched once and the
   * filtered list is paged by 20 on the client.
   */
  function ShownCorrected(
    newestFirst: seq<Activity>, currentPage: int, term: string, f: Filters,
    parseDate: string -> Option<int>): seq<Activity>
  {
    Paginated(Filtered(Fetched(newestFirst, 1), term, f, parseDate), currentPage)
  }

  /**
   * With a single fetch the page buttons 1..PageCount reach every filtered activity of
   * the newest 100 exactly once, and with at most 100 movements that is every filtered
   * movement.
   */
  lemma CorrectedPagesCoverHistory(newestFirst: seq<Activity>, term: string, f: Filters, parseDate: string -> Option<int>)
    ensures var filtered := Filtered(Fetched(newestFirst, 1), term, f, parseDate);
      && FirstPages(filtered, ItemsPerPage, PageCount(|filtered|)) == filtered
      && (forall p :: 1 <= p <= PageCount(|filtered|) ==> ShownCorrected(newestFirst, p, term, f, parseDate) != [])
      && (|newestFirst| <= FetchLimit ==> filtered == Filtered(newestFirst, term, f, parseDate))
  {
    var filtered := Filtered(Fetched(newestFirst, 1), term, f, parseDate);
    PagesCoverFiltered(filtered);
    PageContents(newestFirst, 1, FetchLimit);
    if |newestFirst| <= FetchLimit {
      assert Fetched(newestFirst, 1) == newestFirst;
    }
  }
}
