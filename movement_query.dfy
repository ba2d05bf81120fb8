/**
 * The GET handler of the inventory movement route: the movement history, optionally
 * restricted to one product, newest first, one page at a time.
 */
module MovementQuery {
  import opened Wrappers
  import opened JsText
  import opened Seqs
  import opened Paging
  import opened InventoryMovementModel

  const DefaultLimit := 50
  const DefaultPage := 1

  /** The query string; None stands for a parameter that is absent. */
  datatype QueryParams = QueryParams(productId: Option<string>, limit: Option<string>, page: Option<string>)

  /**
   * `parseInt(text) || fallback`: a parameter that is absent, has no leading digits or
   * parses to 0 falls back to the default.
   */
  function IntOr(text: Option<string>, fallback: int): (n: int)
    ensures n == fallback || (text.Some? && ParseInt(text.value) == Some(n) && n != 0)
    ensures text.Some? && ParseInt(text.value).Some? && ParseInt(text.value).value != 0 ==>
              n == ParseInt(text.value).value
  {
    match text
    case None => fallback
    case Some(t) =>
      match ParseInt(t)
      case None => fallback
      case Some(v) => if v == 0 then fallback else v
  }

  /** `if (productId) query.productId = productId`: an absent or empty id selects every movement. */
  function Matching(log: seq<Movement>, productId: Option<string>): seq<Movement> {
    if productId.Some? && productId.value != "" then Filter(log, (m: Movement) => m.productId == productId.value)
    else log
  }

  function Timestamp(m: Movement): int {
    m.timestamp
  }

  /** `sort({ timestamp: -1 })`; records with equal timestamps keep their log order. */
  function SortNewestFirst(s: seq<Movement>): seq<Movement> {
    SortDesc(s, Timestamp)
  }

  /**
   * `skip(skip).limit(limit)`: a negative limit returns as many documents as its absolute
   * value; the window is cut to the documents there are.
   */
  function Window<T>(s: seq<T>, skip: nat, limit: int): seq<T> {
    var size := if limit < 0 then -limit else limit;
    s[Min(skip, |s|)..Min(skip + size, |s|)]
  }

  /**
   * The window holds at most |limit| items: the ones from position skip on, or none when
   * skip is past the end; it keeps a descending order.
   */
  lemma WindowSpec<T>(s: seq<T>, skip: nat, limit: int, key: T -> int)
    ensures var size := if limit < 0 then -limit else limit;
      && |Window(s, skip, limit)| <= size
      && (skip < |s| ==> Window(s, skip, limit) == s[skip..Min(skip + size, |s|)])
      && (skip >= |s| ==> Window(s, skip, limit) == [])
      && (forall x :: x in Window(s, skip, limit) ==> x in s)
      && (Descending(s, key) ==> Descending(Window(s, skip, limit), key))
  {
    var w := Window(s, skip, limit);
    var from := Min(skip, |s|);
    if Descending(s, key) {
      forall i, j | 0 <= i < j < |w| ensures key(w[i]) >= key(w[j]) {
        assert w[i] == s[from + i] && w[j] == s[from + j];
      }
    }
  }

  ghost predicate NewestFirst(s: seq<Movement>) {
    Descending(s, Timestamp)
  }

  datatype Pagination = Pagination(page: int, limit: int, total: nat, pages: int)

  datatype Listing = Listing(movements: seq<Movement>, pagination: Pagination)

  /** A negative skip is refused by the database and surfaces as a 500. */
  datatype QueryError = NegativeSkip

  /** The GET handler over the movement log: parse the query, then serve it. */
  function Get(log: seq<Movement>, params: QueryParams): Result<Listing, QueryError> {
    Serve(log, params.productId, IntOr(params.limit, DefaultLimit), IntOr(params.page, DefaultPage))
  }

  /** The query with its limit and page already parsed; `|| 50` never lets the limit be 0. */
  function Serve(log: seq<Movement>, productId: Option<string>, limit: int, page: int): Result<Listing, QueryError>
    requires limit != 0
  {
    var matching := Matching(log, productId);
    var skip := (page - 1) * limit;
    if skip < 0 then Err(NegativeSkip)
    else
      Ok(Listing(Window(SortNewestFirst(matching), skip, limit),
                 Pagination(page, limit, |matching|, CeilDiv(|matching|, limit))))
  }

  /** Without parameters the handler serves page 1 of 50: the 50 newest movements. */
  lemma GetDefaults(log: seq<Movement>)
    ensures var r := Get(log, QueryParams(None, None, None));
      && r.Ok?
      && r.value.pagination.page == 1 && r.value.pagination.limit == 50
      && r.value.pagination.total == |log|
      && r.value.movements == SortNewestFirst(log)[..Min(50, |log|)]
  {
    assert IntOr(None, DefaultLimit) == 50 && IntOr(None, DefaultPage) == 1;
    assert Matching(log, None) == log;
  }

  /** Exactly the movements of the requested product match; with no product, all do. */
  lemma MatchingSpec(log: seq<Movement>, productId: Option<string>)
    ensures forall m :: m in Matching(log, productId) <==>
      m in log && (productId.Some? && productId.value != "" ==> m.productId == productId.value)
    ensures productId.None? || productId.value == "" ==> Matching(log, productId) == log
  {
    if productId.Some? && productId.value != "" {
      FilterMembers(log, (m: Movement) => m.productId == productId.value);
    }
  }

  /** The handler fails exactly when (page - 1) * limit is negative; limit and page are never 0. */
  lemma GetFailsIff(log: seq<Movement>, params: QueryParams)
    ensures var limit, page := IntOr(params.limit, DefaultLimit), IntOr(params.page, DefaultPage);
      && limit != 0 && page != 0
      && (Get(log, params).Err? <==> (page - 1) * limit < 0)
  {
  }

  /**
   * A served listing is a newest-first window of at most |limit| matching movements,
   * starting at the skip; the total counts every matching movement and pages is
   * ceil(total / limit).
   */
  lemma ServeSpec(log: seq<Movement>, productId: Option<string>, limit: int, page: int, skip: nat)
    requires limit != 0 && skip == (page - 1) * limit
    ensures Serve(log, productId, limit, page).Ok?
    ensures var listing := Serve(log, productId, limit, page).value;
      var matching := Matching(log, productId);
      var sorted := SortNewestFirst(matching);
      var size := if limit < 0 then -limit else limit;
      && listing.pagination == Pagination(page, limit, |matching|, CeilDiv(|matching|, limit))
      && NewestFirst(listing.movements)
      && (forall m :: m in listing.movements ==> m in matching)
      && |listing.movements| <= size
      && (skip < |matching| ==> listing.movements == sorted[skip..Min(skip + size, |matching|)])
      && (skip >= |matching| ==> listing.movements == [])
  {
    var matching := Matching(log, productId);
    var sorted := SortNewestFirst(matching);
    SortDescSpec(matching, Timestamp);
    WindowSpec(sorted, skip, limit, Timestamp);
    forall m | m in sorted ensures m in matching {
      assert m in multiset(sorted);
    }
  }

  /** For a positive limit and a page from 1, the window is that page of the sorted movements. */
  lemma WindowIsPage<T>(s: seq<T>, page: int, limit: int)
    requires page >= 1 && limit >= 1
    ensures (page - 1) * limit >= 0
    ensures Window(s, (page - 1) * limit, limit) == PageOf(s, page, limit)
  {
    MulStep(page, limit);
    PageContents(s, page, limit);
  }

  /**
   * With a positive limit and a page from 1 the handler serves exactly that page of the
   * newest-first matching movements, and the pages 1..pages, read in order, list every
   * matching movement exactly once: each of them is non-empty and later pages are empty.
   */
  lemma ServePagesPartition(log: seq<Movement>, productId: Option<string>, limit: int, page: int)
    requires limit >= 1 && page >= 1
    ensures var sorted := SortNewestFirst(Matching(log, productId));
      var pages := CeilDiv(|sorted|, limit);
      && Serve(log, productId, limit, page).Ok?
      && Serve(log, productId, limit, page).value.movements == PageOf(sorted, page, limit)
      && Serve(log, productId, limit, page).value.pagination.pages == pages
      && pages >= 0
      && FirstPages(sorted, limit, pages) == sorted
      && (forall p :: 1 <= p <= pages ==> PageOf(sorted, p, limit) != [])
      && (forall p :: p > pages ==> PageOf(sorted, p, limit) == [])
  {
    var sorted := SortNewestFirst(Matching(log, productId));
    WindowIsPage(sorted, page, limit);
    PagesPartition(sorted, limit);
  }
}
