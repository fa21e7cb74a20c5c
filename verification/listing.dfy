/**
 * The internal-delivery listing (`getInternalDeliveryOrders`): select the
 * store's internal-courier orders matching the search, take one page, project
 * each order to a summary, look up the page's Local order locations and
 * delivery men (last record wins per order id), keep the orders that have a
 * Local location, and compute the pagination block.
 */
module Listing {
  import opened Wrappers
  import opened DeliveryOrders
  import OrderLocations
  import DeliveryMen

  /** The store the listing is hard-wired to. */
  const StoreContext := 1

  /**
   * The case-insensitive regular-expression match of the search string
   * against an order name, kept abstract: (search, orderName) -> matches.
   */
  type Matcher = (string, string) -> bool

  /** The projection of one delivery order. */
  datatype Summary = Summary(
    orderId: string, orderName: string, fulfillmentId: string, consignmentId: string,
    customerId: string, lastEventStatus: Option<string>)

  /** One entry of the listing. */
  datatype CombinedOrder = CombinedOrder(
    summary: Summary, internalDeliveryType: Option<int>, deliveryManData: Option<DeliveryMen.Contact>)

  datatype Pagination = Pagination(
    currentPage: int, totalPages: nat, totalItems: nat, itemsPerPage: int, searchQuery: Option<string>)

  /** The 200 reply with data and pagination, or the 500 reply. */
  datatype ListingReply = Listed(data: seq<CombinedOrder>, pagination: Pagination) | Failed

  /** The status of the positionally last event, or none for an empty log. */
  function LastEventStatus(events: seq<Event>): Option<string>
  {
    if |events| > 0 then Some(events[|events| - 1].status) else None
  }

  /**
   * Appending an event makes its status the latest one, whatever its time;
   * an empty log has no status.
   */
  lemma LastEventStatusIsPositional(events: seq<Event>, e: Event)
    ensures LastEventStatus(events + [e]) == Some(e.status)
    ensures LastEventStatus([]) == None
  {
  }

  /** Timestamps are not compared: the later-listed event wins even if it happened earlier. */
  lemma LastEventStatusIgnoresTime()
    ensures LastEventStatus([Event(5, "CREATED", None), Event(1, "DELIVERED", None)]) == Some("DELIVERED")
  {
  }

  function Summarize(o: DeliveryOrder): Summary
  {
    Summary(o.orderId, o.orderName, o.fulfillmentId, o.consignmentId, o.customerId, LastEventStatus(o.events))
  }

  function SummarizeAll(orders: seq<DeliveryOrder>): (r: seq<Summary>)
    ensures |r| == |orders|
    ensures forall i :: 0 <= i < |orders| ==> r[i] == Summarize(orders[i])
  {
    seq(|orders|, i requires 0 <= i < |orders| => Summarize(orders[i]))
  }

  /** The listing's match stage: this store, the internal courier, and the search when there is one. */
  predicate Selected(o: DeliveryOrder, search: string, matches: Matcher)
  {
    o.storeId == StoreContext && o.courierService == Internal && (search == "" || matches(search, o.orderName))
  }

  /** The orders that pass the match stage, in the order the pipeline yields them. */
  function Select(orders: seq<DeliveryOrder>, search: string, matches: Matcher): (r: seq<DeliveryOrder>)
    ensures |r| <= |orders|
  {
    if orders == [] then []
    else (if Selected(orders[0], search, matches) then [orders[0]] else []) + Select(orders[1..], search, matches)
  }

  /** An order is selected exactly when it is in the collection and passes the match stage. */
  lemma {:induction false} SelectMembers(orders: seq<DeliveryOrder>, search: string, matches: Matcher, o: DeliveryOrder)
    ensures o in Select(orders, search, matches) <==> o in orders && Selected(o, search, matches)
  {
    if orders != [] {
      SelectMembers(orders[1..], search, matches, o);
      assert o in orders <==> o == orders[0] || o in orders[1..];
    }
  }

  lemma ConcatAssoc<T>(x: seq<T>, y: seq<T>, z: seq<T>)
    ensures x + (y + z) == (x + y) + z
  {
  }

  /** Selection keeps the relative order of the orders: it distributes over concatenation. */
  lemma {:induction false} SelectAppend(a: seq<DeliveryOrder>, b: seq<DeliveryOrder>, search: string, matches: Matcher)
    ensures Select(a + b, search, matches) == Select(a, search, matches) + Select(b, search, matches)
  {
    if a != [] {
      var x := a + b;
      assert x[0] == a[0];
      assert x[1..] == a[1..] + b;
      var h := if Selected(a[0], search, matches) then [a[0]] else [];
      assert Select(x, search, matches) == h + Select(a[1..] + b, search, matches);
      assert Select(a, search, matches) == h + Select(a[1..], search, matches);
      SelectAppend(a[1..], b, search, matches);
      ConcatAssoc(h, Select(a[1..], search, matches), Select(b, search, matches));
    } else {
      assert a + b == b;
    }
  }

  /** `$skip: skip` followed by `$limit: limit`. */
  function Window<T>(xs: seq<T>, skip: nat, limit: nat): (r: seq<T>)
    ensures |r| <= limit
    ensures skip >= |xs| ==> r == []
    ensures skip < |xs| ==> |r| == if limit < |xs| - skip then limit else |xs| - skip
    ensures forall i :: 0 <= i < |r| ==> skip + i < |xs| && r[i] == xs[skip + i]
  {
    if skip >= |xs| then []
    else xs[skip..if limit < |xs| - skip then skip + limit else |xs|]
  }

  /** The order ids of a page, as the `$in` lists of the follow-up queries use them. */
  function IdSet(page: seq<Summary>): set<string>
  {
    set s | s in page :: s.orderId
  }

  /** A find: the documents `keep` admits, in collection order, as (key, value) entries. */
  function Fetch<T, V>(xs: seq<T>, keep: T -> bool, entry: T -> (string, V)): seq<(string, V)>
  {
    if xs == [] then []
    else Fetch(xs[..|xs| - 1], keep, entry) + (if keep(xs[|xs| - 1]) then [entry(xs[|xs| - 1])] else [])
  }

  /** The lookup object built by `reduce`: each entry overwrites any earlier one with the same key. */
  function LastWriteWins<V>(entries: seq<(string, V)>): (m: map<string, V>)
    ensures m.Keys == set i | 0 <= i < |entries| :: entries[i].0
  {
    if entries == [] then map[]
    else
      var last := entries[|entries| - 1];
      LastWriteWins(entries[..|entries| - 1])[last.0 := last.1]
  }

  /** Document `i` of `xs` is admitted by the find and has key `k`. */
  predicate AdmittedAt<T, V>(xs: seq<T>, keep: T -> bool, entry: T -> (string, V), k: string, i: int)
  {
    0 <= i < |xs| && keep(xs[i]) && entry(xs[i]).0 == k
  }

  /** Document `i` is the last admitted document with key `k`. */
  predicate LastAdmittedAt<T, V>(xs: seq<T>, keep: T -> bool, entry: T -> (string, V), k: string, i: int)
  {
    AdmittedAt(xs, keep, entry, k, i) && forall j :: i < j < |xs| ==> !AdmittedAt(xs, keep, entry, k, j)
  }

  lemma LookupStep<T, V>(xs: seq<T>, keep: T -> bool, entry: T -> (string, V))
    requires xs != []
    ensures var pre := LastWriteWins(Fetch(xs[..|xs| - 1], keep, entry));
            var x := xs[|xs| - 1];
            LastWriteWins(Fetch(xs, keep, entry)) == if keep(x) then pre[entry(x).0 := entry(x).1] else pre
  {
    var f := Fetch(xs[..|xs| - 1], keep, entry);
    var x := xs[|xs| - 1];
    if keep(x) {
      assert (f + [entry(x)])[..|f|] == f;
    } else {
      assert f + [] == f;
    }
  }

  /**
   * The lookup built from a find holds a key exactly when some admitted
   * document has it, and then holds the value of the last such document.
   */
  lemma {:induction false} LookupIsLastAdmitted<T, V>(xs: seq<T>, keep: T -> bool, entry: T -> (string, V), k: string)
    ensures var m := LastWriteWins(Fetch(xs, keep, entry));
            (k in m <==> exists i :: AdmittedAt(xs, keep, entry, k, i))
            && (k in m ==> exists i :: LastAdmittedAt(xs, keep, entry, k, i) && m[k] == entry(xs[i]).1)
    decreases |xs|
  {
    if xs != [] {
      var pre := xs[..|xs| - 1];
      var x := xs[|xs| - 1];
      LookupIsLastAdmitted(pre, keep, entry, k);
      LookupStep(xs, keep, entry);
      var m0 := LastWriteWins(Fetch(pre, keep, entry));
      var m := LastWriteWins(Fetch(xs, keep, entry));
      forall i | AdmittedAt(pre, keep, entry, k, i) ensures AdmittedAt(xs, keep, entry, k, i) {
        assert xs[i] == pre[i];
      }
      if keep(x) && entry(x).0 == k {
        assert LastAdmittedAt(xs, keep, entry, k, |xs| - 1);
      } else {
        assert m == m0 || (keep(x) && m == m0[entry(x).0 := entry(x).1]);
        forall i | AdmittedAt(xs, keep, entry, k, i) ensures AdmittedAt(pre, keep, entry, k, i) {
          assert xs[i] == pre[i];
        }
        if k in m {
          var i :| LastAdmittedAt(pre, keep, entry, k, i) && m0[k] == entry(pre[i]).1;
          assert xs[i] == pre[i];
          assert LastAdmittedAt(xs, keep, entry, k, i) by {
            forall j | i < j < |xs| ensures !AdmittedAt(xs, keep, entry, k, j) {
              if j < |pre| {
                assert xs[j] == pre[j];
                assert !AdmittedAt(pre, keep, entry, k, j);
              }
            }
          }
        }
      }
    }
  }

  /** The order-location lookup: Local locations of the page's orders, order id -> delivery type. */
  function LocationMap(locations: seq<OrderLocations.OrderLocation>, ids: set<string>): map<string, Option<int>>
  {
    LastWriteWins(Fetch(locations, LocalFor(ids), LocationEntry))
  }

  function LocalFor(ids: set<string>): OrderLocations.OrderLocation -> bool
  {
    (l: OrderLocations.OrderLocation) => l.orderId in ids && l.deliveryOption == OrderLocations.OptionCode(OrderLocations.Local)
  }

  function LocationEntry(l: OrderLocations.OrderLocation): (string, Option<int>)
  {
    (l.orderId, l.internalDeliveryType)
  }

  /** The delivery-man lookup: the page's assignments, order id -> contact. */
  function DeliveryManMap(men: seq<DeliveryMen.DeliveryMan>, ids: set<string>): map<string, DeliveryMen.Contact>
  {
    LastWriteWins(Fetch(men, AssignedFor(ids), ContactEntry))
  }

  function AssignedFor(ids: set<string>): DeliveryMen.DeliveryMan -> bool
  {
    (d: DeliveryMen.DeliveryMan) => d.orderId in ids
  }

  function ContactEntry(d: DeliveryMen.DeliveryMan): (string, DeliveryMen.Contact)
  {
    (d.orderId, DeliveryMen.Contact(d.name, d.phoneNumber))
  }

  /** One listing entry: the summary with its delivery type and its delivery man, or null. */
  function Combine(s: Summary, locations: map<string, Option<int>>, men: map<string, DeliveryMen.Contact>): CombinedOrder
    requires s.orderId in locations
  {
    CombinedOrder(s, locations[s.orderId], if s.orderId in men then Some(men[s.orderId]) else None)
  }

  /** The filter-then-map that keeps the page's orders that have a Local location. */
  function Join(page: seq<Summary>, locations: map<string, Option<int>>, men: map<string, DeliveryMen.Contact>)
    : (r: seq<CombinedOrder>)
    ensures |r| <= |page|
  {
    if page == [] then []
    else
      (if page[0].orderId in locations then [Combine(page[0], locations, men)] else [])
      + Join(page[1..], locations, men)
  }

  /**
   * The entries of the join are exactly the combinations of the page's
   * orders that have a location.
   */
  lemma {:induction false} JoinMembers(page: seq<Summary>, locations: map<string, Option<int>>,
                                       men: map<string, DeliveryMen.Contact>, c: CombinedOrder)
    ensures c in Join(page, locations, men) <==>
              c.summary in page && c.summary.orderId in locations && c == Combine(c.summary, locations, men)
  {
    if page != [] {
      JoinMembers(page[1..], locations, men, c);
      assert c.summary in page <==> c.summary == page[0] || c.summary in page[1..];
    }
  }

  /** The join keeps the page's order: it distributes over concatenation. */
  lemma {:induction false} JoinAppend(a: seq<Summary>, b: seq<Summary>,
                                      locations: map<string, Option<int>>, men: map<string, DeliveryMen.Contact>)
    ensures Join(a + b, locations, men) == Join(a, locations, men) + Join(b, locations, men)
  {
    if a != [] {
      var x := a + b;
      assert x[0] == a[0];
      assert x[1..] == a[1..] + b;
      var h := if a[0].orderId in locations then [Combine(a[0], locations, men)] else [];
      assert Join(x, locations, men) == h + Join(a[1..] + b, locations, men);
      assert Join(a, locations, men) == h + Join(a[1..], locations, men);
      JoinAppend(a[1..], b, locations, men);
      ConcatAssoc(h, Join(a[1..], locations, men), Join(b, locations, men));
    } else {
      assert a + b == b;
    }
  }

  /** The count query: selected orders whose order id is among `ids`. */
  function CountDocuments(orders: seq<DeliveryOrder>, search: string, matches: Matcher, ids: set<string>): nat
  {
    if orders == [] then 0
    else
      (if Selected(orders[0], search, matches) && orders[0].orderId in ids then 1 else 0)
      + CountDocuments(orders[1..], search, matches, ids)
  }

  /** `Math.ceil(n / d)` for a positive divisor, counted one page at a time. */
  function CeilDiv(n: nat, d: int): nat
    requires d >= 1
    decreases n
  {
    if n == 0 then 0 else if n <= d then 1 else 1 + CeilDiv(n - d, d)
  }

  /** `CeilDiv` is the least number of pages of size `d` that hold `n` items. */
  lemma {:induction false} CeilDivIsCeiling(n: nat, d: int)
    requires d >= 1
    ensures CeilDiv(n, d) * d >= n
    ensures CeilDiv(n, d) == 0 || (CeilDiv(n, d) - 1) * d < n
    ensures CeilDiv(n, d) == 0 <==> n == 0
    decreases n
  {
    if n > d {
      CeilDivIsCeiling(n - d, d);
      var q := CeilDiv(n - d, d);
      assert CeilDiv(n, d) * d == q * d + d;
      assert (CeilDiv(n, d) - 1) * d == q * d;
    }
  }

  /** The `$skip` of page `page` (from 1): the items of the pages before it, `(page - 1) * limit`. */
  function Skip(page: int, limit: int): nat
    requires page >= 1 && limit >= 1
    decreases page
  {
    if page == 1 then 0 else Skip(page - 1, limit) + limit
  }

  lemma {:induction false} SkipIsProduct(page: int, limit: int)
    requires page >= 1 && limit >= 1
    ensures Skip(page, limit) == (page - 1) * limit
    decreases page
  {
    if page > 1 {
      SkipIsProduct(page - 1, limit);
      assert (page - 1) * limit == (page - 2) * limit + limit;
    }
  }

  /** The selected orders on page `page` (from 1) of size `limit`. */
  function PageOf(orders: seq<DeliveryOrder>, page: int, limit: int, search: string, matches: Matcher)
    : (r: seq<DeliveryOrder>)
    requires page >= 1 && limit >= 1
    ensures |r| <= limit
  {
    Window(Select(orders, search, matches), Skip(page, limit), limit)
  }

  /**
   * `getInternalDeliveryOrders` for already-parsed `page` and `limit`. A page
   * below 1 gives a negative `$skip` and a limit below 1 a non-positive
   * `$limit`; the database refuses both. Those refusals and any other failing
   * query (`readFails`) end in the handler's 500 reply.
   */
  function GetInternalDeliveryOrders(
    orders: seq<DeliveryOrder>, locations: seq<OrderLocations.OrderLocation>, men: seq<DeliveryMen.DeliveryMan>,
    page: int, limit: int, search: string, matches: Matcher, readFails: bool): (r: ListingReply)
    ensures r.Failed? <==> readFails || page < 1 || limit < 1
    ensures r.Listed? ==> |r.data| <= limit
    ensures r.Listed? ==> r.pagination.currentPage == page && r.pagination.itemsPerPage == limit
    ensures r.Listed? ==> (r.pagination.searchQuery.None? <==> search == "")
    ensures r.Listed? && search != "" ==> r.pagination.searchQuery == Some(search)
  {
    if readFails || page < 1 || limit < 1 then Failed
    else
      var window := SummarizeAll(PageOf(orders, page, limit, search, matches));
      var ids := IdSet(window);
      var data := Join(window, LocationMap(locations, ids), DeliveryManMap(men, ids));
      var total := CountDocuments(orders, search, matches, ids);
      Listed(data, Pagination(page, CeilDiv(total, limit), total, limit, if search == "" then None else Some(search)))
  }

  /** How many orders of `xs` have an id in `ids`. */
  function CountIn(xs: seq<DeliveryOrder>, ids: set<string>): nat
  {
    if xs == [] then 0 else (if xs[0].orderId in ids then 1 else 0) + CountIn(xs[1..], ids)
  }

  lemma {:induction false} CountDocumentsOfSelection(orders: seq<DeliveryOrder>, search: string, matches: Matcher, ids: set<string>)
    ensures CountDocuments(orders, search, matches, ids) == CountIn(Select(orders, search, matches), ids)
  {
    if orders != [] {
      CountDocumentsOfSelection(orders[1..], search, matches, ids);
      var head := if Selected(orders[0], search, matches) then [orders[0]] else [];
      CountInAppend(head, Select(orders[1..], search, matches), ids);
      if head != [] {
        assert head[1..] == [];
      }
    }
  }

  lemma {:induction false} CountInAppend(a: seq<DeliveryOrder>, b: seq<DeliveryOrder>, ids: set<string>)
    ensures CountIn(a + b, ids) == CountIn(a, ids) + CountIn(b, ids)
  {
    if a != [] {
      assert (a + b)[1..] == a[1..] + b;
      CountInAppend(a[1..], b, ids);
    } else {
      assert a + b == b;
    }
  }

  lemma {:induction false} CountInAll(xs: seq<DeliveryOrder>, ids: set<string>)
    requires forall i :: 0 <= i < |xs| ==> xs[i].orderId in ids
    ensures CountIn(xs, ids) == |xs|
  {
    if xs != [] {
      CountInAll(xs[1..], ids);
    }
  }

  /**
   * `totalPages` is the number of pages of `itemsPerPage` that hold
   * `totalItems`: enough of them, and no more than needed.
   */
  lemma PagesHoldTotal(orders: seq<DeliveryOrder>, locations: seq<OrderLocations.OrderLocation>,
                       men: seq<DeliveryMen.DeliveryMan>, page: int, limit: int, search: string, matches: Matcher)
    requires page >= 1 && limit >= 1
    ensures var p := GetInternalDeliveryOrders(orders, locations, men, page, limit, search, matches, false).pagination;
            && p.totalPages * limit >= p.totalItems
            && (p.totalPages == 0 || (p.totalPages - 1) * limit < p.totalItems)
  {
    var p := GetInternalDeliveryOrders(orders, locations, men, page, limit, search, matches, false).pagination;
    CeilDivIsCeiling(p.totalItems, limit);
  }

  /** A count restricted to ids that include a window's ids covers the whole window. */
  lemma CountCoversWindow(xs: seq<DeliveryOrder>, skip: nat, limit: nat, ids: set<string>)
    requires forall i :: 0 <= i < |Window(xs, skip, limit)| ==> Window(xs, skip, limit)[i].orderId in ids
    ensures CountIn(xs, ids) >= |Window(xs, skip, limit)|
  {
    var w := Window(xs, skip, limit);
    if skip < |xs| {
      var end := skip + |w|;
      assert w == xs[skip..end];
      assert xs == xs[..skip] + w + xs[end..];
      CountInAppend(xs[..skip] + w, xs[end..], ids);
      CountInAppend(xs[..skip], w, ids);
      CountInAll(w, ids);
    }
  }

  /** What a listed reply is made of, for a valid page and limit. */
  lemma ListedParts(orders: seq<DeliveryOrder>, locations: seq<OrderLocations.OrderLocation>,
                    men: seq<DeliveryMen.DeliveryMan>, page: int, limit: int, search: string, matches: Matcher)
    requires page >= 1 && limit >= 1
    ensures var window := SummarizeAll(PageOf(orders, page, limit, search, matches));
            var ids := IdSet(window);
            var r := GetInternalDeliveryOrders(orders, locations, men, page, limit, search, matches, false);
            && r.Listed?
            && r.data == Join(window, LocationMap(locations, ids), DeliveryManMap(men, ids))
            && r.pagination.totalItems == CountDocuments(orders, search, matches, ids)
  {
  }

  /** Every order of a page has its id among the page's ids. */
  lemma PageIdsCovered(w: seq<DeliveryOrder>)
    ensures forall i :: 0 <= i < |w| ==> w[i].orderId in IdSet(SummarizeAll(w))
  {
  }

  /**
   * The total the listing reports counts every fetched order: the count is
   * taken over the same selection, restricted to the page's own ids.
   */
  lemma TotalCoversPage(orders: seq<DeliveryOrder>, locations: seq<OrderLocations.OrderLocation>,
                        men: seq<DeliveryMen.DeliveryMan>, page: int, limit: int, search: string, matches: Matcher)
    requires page >= 1 && limit >= 1
    ensures var r := GetInternalDeliveryOrders(orders, locations, men, page, limit, search, matches, false);
            r.pagination.totalItems >= |PageOf(orders, page, limit, search, matches)| >= |r.data|
  {
    var w := PageOf(orders, page, limit, search, matches);
    var ids := IdSet(SummarizeAll(w));
    ListedParts(orders, locations, men, page, limit, search, matches);
    CountDocumentsOfSelection(orders, search, matches, ids);
    PageIdsCovered(w);
    CountCoversWindow(Select(orders, search, matches), Skip(page, limit), limit, ids);
  }

  /** A listed entry's summary is that of a selected order of the page. */
  lemma EntryFromPage(orders: seq<DeliveryOrder>, page: int, limit: int, search: string, matches: Matcher, s: Summary)
    requires page >= 1 && limit >= 1
    requires s in SummarizeAll(PageOf(orders, page, limit, search, matches))
    ensures s.orderId in IdSet(SummarizeAll(PageOf(orders, page, limit, search, matches)))
    ensures exists o :: o in orders && Selected(o, search, matches) && Summarize(o) == s
  {
    var w := PageOf(orders, page, limit, search, matches);
    var window := SummarizeAll(w);
    var n :| 0 <= n < |window| && window[n] == s;
    SelectMembers(orders, search, matches, w[n]);
  }

  /** A page id in the location lookup maps to the type of its last Local location. */
  lemma LocationLookup(locations: seq<OrderLocations.OrderLocation>, ids: set<string>, k: string)
    requires k in ids && k in LocationMap(locations, ids)
    ensures exists i :: && 0 <= i < |locations|
                        && locations[i].orderId == k && locations[i].deliveryOption == 1
                        && locations[i].internalDeliveryType == LocationMap(locations, ids)[k]
                        && forall j :: i < j < |locations| ==> !(locations[j].orderId == k && locations[j].deliveryOption == 1)
  {
    LookupIsLastAdmitted(locations, LocalFor(ids), LocationEntry, k);
    var i :| LastAdmittedAt(locations, LocalFor(ids), LocationEntry, k, i)
             && LocationMap(locations, ids)[k] == LocationEntry(locations[i]).1;
    forall j | i < j < |locations| ensures !(locations[j].orderId == k && locations[j].deliveryOption == 1) {
      assert !AdmittedAt(locations, LocalFor(ids), LocationEntry, k, j);
    }
  }

  /** A page id has a contact in the delivery-man lookup exactly when it was assigned, the last assignment winning. */
  lemma ContactLookup(men: seq<DeliveryMen.DeliveryMan>, ids: set<string>, k: string)
    requires k in ids
    ensures k !in DeliveryManMap(men, ids) <==> forall i :: 0 <= i < |men| ==> men[i].orderId != k
    ensures k in DeliveryManMap(men, ids) ==>
              exists i :: && 0 <= i < |men| && men[i].orderId == k
                          && DeliveryManMap(men, ids)[k] == DeliveryMen.Contact(men[i].name, men[i].phoneNumber)
                          && forall j :: i < j < |men| ==> men[j].orderId != k
  {
    LookupIsLastAdmitted(men, AssignedFor(ids), ContactEntry, k);
    if k !in DeliveryManMap(men, ids) {
      forall i | 0 <= i < |men| ensures men[i].orderId != k {
        assert !AdmittedAt(men, AssignedFor(ids), ContactEntry, k, i);
      }
    } else {
      var i :| LastAdmittedAt(men, AssignedFor(ids), ContactEntry, k, i)
               && DeliveryManMap(men, ids)[k] == ContactEntry(men[i]).1;
      forall j | i < j < |men| ensures men[j].orderId != k {
        assert !AdmittedAt(men, AssignedFor(ids), ContactEntry, k, j);
      }
    }
  }

  /**
   * Where each listed entry comes from: a selected order of the page, the
   * last Local location stored for its order id, and the last delivery man
   * stored for it (or none when there is none).
   */
  lemma EntryProvenance(orders: seq<DeliveryOrder>, locations: seq<OrderLocations.OrderLocation>,
                        men: seq<DeliveryMen.DeliveryMan>, page: int, limit: int, search: string,
                        matches: Matcher, c: CombinedOrder)
    requires page >= 1 && limit >= 1
    requires c in GetInternalDeliveryOrders(orders, locations, men, page, limit, search, matches, false).data
    ensures exists o :: o in orders && Selected(o, search, matches) && Summarize(o) == c.summary
    ensures exists i :: && 0 <= i < |locations|
                        && locations[i].orderId == c.summary.orderId && locations[i].deliveryOption == 1
                        && locations[i].internalDeliveryType == c.internalDeliveryType
                        && forall j :: i < j < |locations| ==>
                             !(locations[j].orderId == c.summary.orderId && locations[j].deliveryOption == 1)
    ensures c.deliveryManData.None? <==> forall i :: 0 <= i < |men| ==> men[i].orderId != c.summary.orderId
    ensures c.deliveryManData.Some? ==>
              exists i :: && 0 <= i < |men| && men[i].orderId == c.summary.orderId
                          && c.deliveryManData.value == DeliveryMen.Contact(men[i].name, men[i].phoneNumber)
                          && forall j :: i < j < |men| ==> men[j].orderId != c.summary.orderId
  {
    var window := SummarizeAll(PageOf(orders, page, limit, search, matches));
    var ids := IdSet(window);
    ListedParts(orders, locations, men, page, limit, search, matches);
    JoinMembers(window, LocationMap(locations, ids), DeliveryManMap(men, ids), c);
    EntryFromPage(orders, page, limit, search, matches, c.summary);
    LocationLookup(locations, ids, c.summary.orderId);
    ContactLookup(men, ids, c.summary.orderId);
  }

  /**
   * The listed data follows the fetched page's order: cutting the page
   * anywhere, the data is the first part's entries followed by the second's.
   */
  lemma DataIsFilteredPage(orders: seq<DeliveryOrder>, locations: seq<OrderLocations.OrderLocation>,
                           men: seq<DeliveryMen.DeliveryMan>, page: int, limit: int, search: string,
                           matches: Matcher, split: nat)
    requires page >= 1 && limit >= 1
    requires split <= |PageOf(orders, page, limit, search, matches)|
    ensures var window := SummarizeAll(PageOf(orders, page, limit, search, matches));
            var ids := IdSet(window);
            var locs := LocationMap(locations, ids);
            var mens := DeliveryManMap(men, ids);
            GetInternalDeliveryOrders(orders, locations, men, page, limit, search, matches, false).data
              == Join(window[..split], locs, mens) + Join(window[split..], locs, mens)
  {
    var window := SummarizeAll(PageOf(orders, page, limit, search, matches));
    assert window == window[..split] + window[split..];
    JoinAppend(window[..split], window[split..], LocationMap(locations, IdSet(window)), DeliveryManMap(men, IdSet(window)));
  }

  // The count query is restricted to the ids of the current page, so the
  // totals describe that page rather than the whole selection.

  /** Any search string matches: the matcher used when no search narrows the selection. */
  function MatchAll(search: string, name: string): bool
  {
    true
  }

  /** A store-1, internal-courier order with the given id and no events. */
  function InternalOrder(id: string): (o: DeliveryOrder)
    ensures o.orderId == id && Selected(o, "", MatchAll)
  {
    DeliveryOrder(StoreContext, "shop.example", Internal, id, "#" + id, "c", "k" + id, "f", [], 0)
  }

  /**
   * As written: with two selected orders and one order per page, page 1
   * reports a single page in total, yet page 2 still holds an order.
   */
  lemma WindowedCountHidesLaterPages()
    ensures var orders := [InternalOrder("A"), InternalOrder("B")];
            var p := GetInternalDeliveryOrders(orders, [], [], 1, 1, "", MatchAll, false).pagination;
            && p.totalItems == 1 && p.totalPages == 1
            && 2 > p.totalPages && PageOf(orders, 2, 1, "", MatchAll) != []
  {
    var orders := [InternalOrder("A"), InternalOrder("B")];
    assert Select(orders, "", MatchAll) == orders by {
      assert orders[1..] == [orders[1]];
      assert orders[1..][1..] == [];
    }
    var ids := IdSet(SummarizeAll(PageOf(orders, 1, 1, "", MatchAll)));
    assert PageOf(orders, 1, 1, "", MatchAll) == [orders[0]];
    assert SummarizeAll([orders[0]]) == [Summarize(orders[0])];
    assert ids == {"A"};
    ListedParts(orders, [], [], 1, 1, "", MatchAll);
    assert orders[1..] == [orders[1]] && orders[1..][1..] == [];
    assert CountDocuments(orders[1..][1..], "", MatchAll, ids) == 0;
    assert CountDocuments(orders[1..], "", MatchAll, ids) == 0;
    assert CountDocuments(orders, "", MatchAll, ids) == 1;
    assert PageOf(orders, 2, 1, "", MatchAll) == [orders[1]];
  }

  /** The pagination block with the count taken over the whole selection. */
  function SelectionPagination(orders: seq<DeliveryOrder>, page: int, limit: int, search: string, matches: Matcher)
    : (p: Pagination)
    requires limit >= 1
    ensures p.currentPage == page && p.itemsPerPage == limit
    ensures p.totalItems == |Select(orders, search, matches)|
  {
    var total := |Select(orders, search, matches)|;
    Pagination(page, CeilDiv(total, limit), total, limit, if search == "" then None else Some(search))
  }

  /** The listing with the count over the whole selection; data as before. */
  function GetInternalDeliveryOrdersCorrected(
    orders: seq<DeliveryOrder>, locations: seq<OrderLocations.OrderLocation>, men: seq<DeliveryMen.DeliveryMan>,
    page: int, limit: int, search: string, matches: Matcher, readFails: bool): (r: ListingReply)
    ensures r.Failed? <==> readFails || page < 1 || limit < 1
    ensures r.Listed? ==> r.data == GetInternalDeliveryOrders(orders, locations, men, page, limit, search, matches, readFails).data
  {
    match GetInternalDeliveryOrders(orders, locations, men, page, limit, search, matches, readFails)
    case Failed => Failed
    case Listed(data, _) => Listed(data, SelectionPagination(orders, page, limit, search, matches))
  }

  /** The pages before `page` never hold fewer items than the pages before an earlier one. */
  lemma {:induction false} SkipMonotone(a: int, b: int, limit: int)
    requires 1 <= a <= b && limit >= 1
    ensures Skip(a, limit) <= Skip(b, limit)
    decreases b
  {
    if a < b {
      SkipMonotone(a, b - 1, limit);
    }
  }

  /** `CeilDiv(n, d)` pages skip fewer than `n` items before the last of them, and one more page skips them all. */
  lemma {:induction false} CeilDivSkip(n: nat, d: int)
    requires d >= 1
    ensures Skip(CeilDiv(n, d) + 1, d) >= n
    ensures CeilDiv(n, d) == 0 || Skip(CeilDiv(n, d), d) < n
    decreases n
  {
    if n > d {
      CeilDivSkip(n - d, d);
    }
  }

  /**
   * With the count over the whole selection, a page is within `totalPages`
   * exactly when it holds orders.
   */
  lemma PagesMatchData(orders: seq<DeliveryOrder>, locations: seq<OrderLocations.OrderLocation>,
                       men: seq<DeliveryMen.DeliveryMan>, page: int, limit: int, search: string, matches: Matcher)
    requires page >= 1 && limit >= 1
    ensures var r := GetInternalDeliveryOrdersCorrected(orders, locations, men, page, limit, search, matches, false);
            r.Listed? && (page <= r.pagination.totalPages <==> PageOf(orders, page, limit, search, matches) != [])
  {
    var n := |Select(orders, search, matches)|;
    var q := CeilDiv(n, limit);
    CeilDivSkip(n, limit);
    if page <= q {
      SkipMonotone(page, q, limit);
    } else {
      SkipMonotone(q + 1, page, limit);
    }
  }
}
