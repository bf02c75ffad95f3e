/**
 * The query layer of `database-helper.js` (class RestaurantDatabase): each
 * method is one SQL statement, stated here over in-memory tables. A SELECT is a
 * filter (and for events an inner join) followed by ORDER BY ... DESC; the one
 * INSERT appends a record under a fresh AUTOINCREMENT id.
 */
module Catalog {
  import opened Text

  /** A row of `restaurants`. `rating` (a SQL REAL) is an integer key, e.g. tenths of a star. */
  datatype Restaurant = Restaurant(
    id: int, name: string, cuisineType: string, address: string, phone: string,
    priceRange: string, rating: int, isOpen: bool)

  /** A row of `events`; `isActive` is the stored BOOLEAN, 1 for true. */
  datatype Event = Event(
    id: int, restaurantId: int, title: string, tagline: string, eventType: string,
    startTime: string, endTime: string, discountPercent: int, isActive: int)

  /** A row of `events JOIN restaurants`: the event's columns plus the restaurant's display columns. */
  datatype EventListing = EventListing(
    event: Event, restaurantName: string, address: string, rating: int, cuisineType: string)

  /** A row of `user_preferences`; `createdAt` is CURRENT_TIMESTAMP in seconds. */
  datatype Preference = Preference(
    id: int, userId: string, preferenceType: string, preferenceValue: string, createdAt: int)

  /** The contents of the three tables at one moment. */
  datatype Tables = Tables(restaurants: seq<Restaurant>, events: seq<Event>, preferences: seq<Preference>)

  // ---------------------------------------------------------------------
  // Filtering and stable descending order
  // ---------------------------------------------------------------------

  /** SQL WHERE (and JavaScript Array.filter): the elements satisfying `p`, in their order. */
  function Filter<T>(s: seq<T>, p: T -> bool): (r: seq<T>)
    ensures |r| <= |s|
    ensures forall i :: 0 <= i < |r| ==> p(r[i])
  {
    if s == [] then [] else (if p(s[0]) then [s[0]] else []) + Filter(s[1..], p)
  }

  ghost predicate SortedDesc<T>(s: seq<T>, key: T -> int) {
    forall i, j :: 0 <= i < j < |s| ==> key(s[i]) >= key(s[j])
  }

  /** Places `x` before the first element whose key is not larger, so equal keys keep their input order. */
  function Insert<T>(x: T, s: seq<T>, key: T -> int): seq<T> {
    if s == [] || key(x) >= key(s[0]) then [x] + s else [s[0]] + Insert(x, s[1..], key)
  }

  /** ORDER BY key DESC, as a stable insertion sort: rows with equal keys keep their table order. */
  function SortDesc<T>(s: seq<T>, key: T -> int): seq<T> {
    if s == [] then [] else Insert(s[0], SortDesc(s[1..], key), key)
  }

  lemma SortedCons<T>(x: T, s: seq<T>, key: T -> int)
    requires SortedDesc(s, key)
    requires forall y | y in s :: key(y) <= key(x)
    ensures SortedDesc([x] + s, key)
  {
    var r := [x] + s;
    forall i, j | 0 <= i < j < |r| ensures key(r[i]) >= key(r[j]) {
      assert r[j] == s[j - 1];
      if i > 0 {
        assert r[i] == s[i - 1];
      }
    }
  }

  lemma SortedTail<T>(s: seq<T>, key: T -> int)
    requires s != [] && SortedDesc(s, key)
    ensures SortedDesc(s[1..], key)
  {
    forall i, j | 0 <= i < j < |s[1..]| ensures key(s[1..][i]) >= key(s[1..][j]) {
      assert s[1..][i] == s[i + 1] && s[1..][j] == s[j + 1];
    }
  }

  lemma {:induction false} InsertCorrect<T>(x: T, s: seq<T>, key: T -> int)
    requires SortedDesc(s, key)
    ensures SortedDesc(Insert(x, s, key), key)
    ensures multiset(Insert(x, s, key)) == multiset(s) + multiset{x}
  {
    if s == [] || key(x) >= key(s[0]) {
      forall y | y in s ensures key(y) <= key(x) {
        var j :| 0 <= j < |s| && s[j] == y;
      }
      SortedCons(x, s, key);
    } else {
      var rest := Insert(x, s[1..], key);
      SortedTail(s, key);
      InsertCorrect(x, s[1..], key);
      assert s == [s[0]] + s[1..];
      SortedHeadBound(s, key);
      InsertKeepsBound(x, s[1..], key, key(s[0]));
      SortedCons(s[0], rest, key);
    }
  }

  /** In a descending sequence no later key exceeds the first. */
  lemma SortedHeadBound<T>(s: seq<T>, key: T -> int)
    requires s != [] && SortedDesc(s, key)
    ensures forall y | y in s[1..] :: key(y) <= key(s[0])
  {
    forall y | y in s[1..] ensures key(y) <= key(s[0]) {
      var j :| 0 <= j < |s[1..]| && s[1..][j] == y;
      assert s[j + 1] == y;
    }
  }

  /** Inserting keeps an upper bound on the keys that both `x` and `s` respect. */
  lemma {:induction false} InsertKeepsBound<T>(x: T, s: seq<T>, key: T -> int, b: int)
    requires key(x) <= b && forall y | y in s :: key(y) <= b
    ensures forall y | y in Insert(x, s, key) :: key(y) <= b
  {
    if s != [] && key(x) < key(s[0]) {
      InsertKeepsBound(x, s[1..], key, b);
    }
  }

  /** The sort returns a permutation of its input in descending key order. */
  lemma {:induction false} SortDescCorrect<T>(s: seq<T>, key: T -> int)
    ensures SortedDesc(SortDesc(s, key), key)
    ensures multiset(SortDesc(s, key)) == multiset(s)
  {
    if s != [] {
      SortDescCorrect(s[1..], key);
      InsertCorrect(s[0], SortDesc(s[1..], key), key);
      assert s == [s[0]] + s[1..];
    }
  }

  lemma {:induction false} FilterKeepsOrder<T>(s: seq<T>, p: T -> bool, key: T -> int)
    requires SortedDesc(s, key)
    ensures SortedDesc(Filter(s, p), key)
  {
    if s != [] {
      FilterKeepsOrder(s[1..], p, key);
      forall y | y in Filter(s[1..], p) ensures key(y) <= key(s[0]) {
        FilterMember(s[1..], p, y);
        var j :| 0 <= j < |s[1..]| && s[1..][j] == y;
        assert s[j + 1] == y;
      }
    }
  }

  lemma FilterCons<T>(x: T, s: seq<T>, p: T -> bool)
    ensures Filter([x] + s, p) == (if p(x) then [x] else []) + Filter(s, p)
  {
    assert ([x] + s)[0] == x && ([x] + s)[1..] == s;
  }

  lemma {:induction false} FilterMember<T>(s: seq<T>, p: T -> bool, x: T)
    ensures x in Filter(s, p) <==> x in s && p(x)
  {
    if s != [] {
      FilterMember(s[1..], p, x);
      assert s == [s[0]] + s[1..];
    }
  }

  /** Inserting in front: the filtered element, if kept, still goes first. */
  lemma FilterInsertFront<T>(x: T, s: seq<T>, key: T -> int, p: T -> bool)
    requires SortedDesc(s, key) && SortedDesc(Filter(s, p), key)
    requires s == [] || key(x) >= key(s[0])
    ensures Filter(Insert(x, s, key), p) == if p(x) then Insert(x, Filter(s, p), key) else Filter(s, p)
  {
    var fs := Filter(s, p);
    assert Insert(x, s, key) == [x] + s;
    FilterCons(x, s, p);
    if p(x) && fs != [] {
      FilterMember(s, p, fs[0]);
      var j :| 0 <= j < |s| && s[j] == fs[0];
      assert key(fs[0]) <= key(s[0]);
    }
  }

  lemma {:induction false} FilterInsert<T>(x: T, s: seq<T>, key: T -> int, p: T -> bool)
    requires SortedDesc(s, key)
    ensures SortedDesc(Filter(s, p), key)
    ensures Filter(Insert(x, s, key), p) == if p(x) then Insert(x, Filter(s, p), key) else Filter(s, p)
  {
    FilterKeepsOrder(s, p, key);
    if s == [] || key(x) >= key(s[0]) {
      FilterInsertFront(x, s, key, p);
    } else {
      var s1 := s[1..];
      var rest := Insert(x, s1, key);
      assert Insert(x, s, key) == [s[0]] + rest;
      SortedTail(s, key);
      FilterInsert(x, s1, key, p);
      FilterCons(s[0], rest, p);
      assert s == [s[0]] + s1;
      FilterCons(s[0], s1, p);
      var fs1 := Filter(s1, p);
      assert Filter(s, p) == (if p(s[0]) then [s[0]] else []) + fs1;
      assert Filter(Insert(x, s, key), p) == (if p(s[0]) then [s[0]] else []) + Filter(rest, p);
      if p(x) {
        assert Filter(rest, p) == Insert(x, fs1, key);
        if p(s[0]) {
          var fs := [s[0]] + fs1;
          assert fs[0] == s[0] && fs[1..] == fs1;
          assert Insert(x, fs, key) == [s[0]] + Insert(x, fs1, key);
        } else {
          assert [] + fs1 == fs1 && [] + Filter(rest, p) == Filter(rest, p);
        }
      } else {
        assert Filter(rest, p) == fs1;
      }
    }
  }

  /** Filtering a stably sorted table gives the stable sort of the filtered table. */
  lemma {:induction false} FilterSortCommute<T>(s: seq<T>, key: T -> int, p: T -> bool)
    ensures Filter(SortDesc(s, key), p) == SortDesc(Filter(s, p), key)
  {
    if s != [] {
      var sorted := SortDesc(s[1..], key);
      var fs := Filter(s[1..], p);
      assert Filter(SortDesc(s, key), p) ==
        if p(s[0]) then Insert(s[0], Filter(sorted, p), key) else Filter(sorted, p) by {
        assert SortDesc(s, key) == Insert(s[0], sorted, key);
        SortDescCorrect(s[1..], key);
        FilterInsert(s[0], sorted, key, p);
      }
      FilterSortCommute(s[1..], key, p);
      assert Filter(s, p) == (if p(s[0]) then [s[0]] else []) + fs by {
        assert s == [s[0]] + s[1..];
        FilterCons(s[0], s[1..], p);
      }
      if p(s[0]) {
        assert SortDesc([s[0]] + fs, key) == Insert(s[0], SortDesc(fs, key), key) by {
          assert ([s[0]] + fs)[0] == s[0] && ([s[0]] + fs)[1..] == fs;
        }
      } else {
        assert [] + fs == fs;
      }
    }
  }

  /** The rows a sorted selection returns are exactly the rows of the table that satisfy the condition. */
  lemma SortFilterMember<T>(s: seq<T>, p: T -> bool, key: T -> int, x: T)
    ensures x in SortDesc(Filter(s, p), key) <==> x in s && p(x)
  {
    var r := SortDesc(Filter(s, p), key);
    SortDescCorrect(Filter(s, p), key);
    assert x in r <==> x in multiset(r);
    FilterMember(s, p, x);
  }

  /** A filter keeps every copy of an element that satisfies the condition, and no copy of one that does not. */
  lemma {:induction false} FilterCount<T>(s: seq<T>, p: T -> bool, x: T)
    ensures multiset(Filter(s, p))[x] == if p(x) then multiset(s)[x] else 0
  {
    if s != [] {
      FilterCount(s[1..], p, x);
      assert s == [s[0]] + s[1..];
    }
  }

  lemma {:induction false} FilterFilter<T>(s: seq<T>, p: T -> bool, q: T -> bool, pq: T -> bool)
    requires forall x :: pq(x) == (p(x) && q(x))
    ensures Filter(Filter(s, p), q) == Filter(s, pq)
  {
    if s != [] {
      FilterFilter(s[1..], p, q, pq);
      assert Filter(s, p) == (if p(s[0]) then [s[0]] else []) + Filter(s[1..], p);
      FilterAppend((if p(s[0]) then [s[0]] else []), Filter(s[1..], p), q);
    }
  }

  lemma {:induction false} FilterAppend<T>(a: seq<T>, b: seq<T>, p: T -> bool)
    ensures Filter(a + b, p) == Filter(a, p) + Filter(b, p)
  {
    if a != [] {
      assert (a + b)[0] == a[0] && (a + b)[1..] == a[1..] + b;
      FilterAppend(a[1..], b, p);
    } else {
      assert a + b == b;
    }
  }

  // ---------------------------------------------------------------------
  // Row predicates and sort keys
  // ---------------------------------------------------------------------

  function ByRating(r: Restaurant): int { r.rating }

  function ByDiscount(x: EventListing): int { x.event.discountPercent }

  function ByCreatedAt(p: Preference): int { p.createdAt }

  /** WHERE cuisine_type LIKE '%c%'. */
  function CuisineLike(c: string): Restaurant -> bool {
    (r: Restaurant) => Like(r.cuisineType, "%" + c + "%")
  }

  /** WHERE price_range = p (the SQL comparison, and JavaScript's `===`, are exact). */
  function PricedAt(p: string): Restaurant -> bool {
    (r: Restaurant) => r.priceRange == p
  }

  /** WHERE is_active = 1. */
  function IsActive(e: Event): bool { e.isActive == 1 }

  /** WHERE event_type = t AND is_active = 1. */
  function ActiveOfType(t: string): Event -> bool {
    (e: Event) => e.eventType == t && e.isActive == 1
  }

  function OfType(t: string): Event -> bool {
    (e: Event) => e.eventType == t
  }

  function ListingOfType(t: string): EventListing -> bool {
    (x: EventListing) => x.event.eventType == t
  }

  /** WHERE user_id = u. */
  function OfUser(u: string): Preference -> bool {
    (p: Preference) => p.userId == u
  }

  // ---------------------------------------------------------------------
  // The inner join of events with restaurants
  // ---------------------------------------------------------------------

  function Listing(e: Event, r: Restaurant): EventListing {
    EventListing(e, r.name, r.address, r.rating, r.cuisineType)
  }

  /** The join rows of one event: one per restaurant whose id is the event's restaurant_id. */
  function JoinOne(e: Event, rs: seq<Restaurant>): (r: seq<EventListing>)
    ensures forall x :: x in r <==> exists rr :: rr in rs && rr.id == e.restaurantId && x == Listing(e, rr)
  {
    if rs == [] then []
    else (if rs[0].id == e.restaurantId then [Listing(e, rs[0])] else []) + JoinOne(e, rs[1..])
  }

  /** The restaurant rows that, joined with the event of `x`, give the row `x`. */
  function Produces(x: EventListing): Restaurant -> bool {
    (rr: Restaurant) => rr.id == x.event.restaurantId && Listing(x.event, rr) == x
  }

  /** An event contributes a row `x` once for each restaurant row producing it, and only if it is the event of `x`. */
  lemma {:induction false} JoinOneCount(e: Event, rs: seq<Restaurant>, x: EventListing)
    ensures multiset(JoinOne(e, rs))[x] == if e == x.event then |Filter(rs, Produces(x))| else 0
  {
    if rs != [] {
      JoinOneCount(e, rs[1..], x);
    }
  }

  /** `events e JOIN restaurants r ON e.restaurant_id = r.id`: an event with no restaurant has no row. */
  function Join(es: seq<Event>, rs: seq<Restaurant>): (r: seq<EventListing>)
    ensures forall x :: x in r <==>
      exists e, rr :: e in es && rr in rs && rr.id == e.restaurantId && x == Listing(e, rr)
  {
    if es == [] then []
    else
      var r := JoinOne(es[0], rs) + Join(es[1..], rs);
      assert forall e :: e in es <==> e == es[0] || e in es[1..] by {
        assert es == [es[0]] + es[1..];
      }
      r
  }

  /** The join has each row as many times as its event occurs, times the restaurant rows that produce it. */
  lemma {:induction false} JoinCount(es: seq<Event>, rs: seq<Restaurant>, x: EventListing)
    ensures multiset(Join(es, rs))[x] == multiset(es)[x.event] * |Filter(rs, Produces(x))|
  {
    if es != [] {
      var n := |Filter(rs, Produces(x))|;
      var a := if es[0] == x.event then 1 else 0;
      var b := multiset(es[1..])[x.event];
      assert multiset(es)[x.event] == a + b by {
        assert es == [es[0]] + es[1..];
      }
      assert multiset(Join(es, rs))[x] == a * n + b * n by {
        assert Join(es, rs) == JoinOne(es[0], rs) + Join(es[1..], rs);
        JoinOneCount(es[0], rs, x);
        JoinCount(es[1..], rs, x);
      }
      AddMul(a, b, n);
    }
  }

  lemma AddMul(a: int, b: int, n: int)
    ensures (a + b) * n == a * n + b * n
  {
  }

  lemma {:induction false} FilterJoin(es: seq<Event>, rs: seq<Restaurant>, t: string)
    ensures Filter(Join(es, rs), ListingOfType(t)) == Join(Filter(es, OfType(t)), rs)
  {
    if es != [] {
      var first := JoinOne(es[0], rs);
      assert Join(es, rs) == first + Join(es[1..], rs);
      FilterJoin(es[1..], rs, t);
      FilterAppend(first, Join(es[1..], rs), ListingOfType(t));
      assert es == [es[0]] + es[1..];
      FilterCons(es[0], es[1..], OfType(t));
      var rest := Filter(es[1..], OfType(t));
      if es[0].eventType == t {
        FilterAll(first, ListingOfType(t));
        assert ([es[0]] + rest)[0] == es[0] && ([es[0]] + rest)[1..] == rest;
        assert Join([es[0]] + rest, rs) == first + Join(rest, rs);
      } else {
        FilterNone(first, ListingOfType(t));
        assert Filter(es, OfType(t)) == rest;
      }
    }
  }

  lemma {:induction false} FilterAll<T>(s: seq<T>, p: T -> bool)
    requires forall x :: x in s ==> p(x)
    ensures Filter(s, p) == s
  {
    if s != [] {
      FilterAll(s[1..], p);
      assert s == [s[0]] + s[1..];
    }
  }

  lemma {:induction false} FilterNone<T>(s: seq<T>, p: T -> bool)
    requires forall x :: x in s ==> !p(x)
    ensures Filter(s, p) == []
  {
    if s != [] {
      FilterNone(s[1..], p);
    }
  }

  // ---------------------------------------------------------------------
  // The queries
  // ---------------------------------------------------------------------

  /** SELECT * FROM restaurants ORDER BY rating DESC. */
  function GetAllRestaurants(rs: seq<Restaurant>): (r: seq<Restaurant>)
    ensures SortedDesc(r, ByRating)
    ensures multiset(r) == multiset(rs)
  {
    SortDescCorrect(rs, ByRating);
    SortDesc(rs, ByRating)
  }

  /** SELECT * FROM restaurants WHERE cuisine_type LIKE '%c%' ORDER BY rating DESC. */
  function GetRestaurantsByCuisine(rs: seq<Restaurant>, c: string): (r: seq<Restaurant>)
    ensures SortedDesc(r, ByRating)
    ensures forall x :: x in r <==> x in rs && Like(x.cuisineType, "%" + c + "%")
  {
    var r := SortDesc(Filter(rs, CuisineLike(c)), ByRating);
    SortDescCorrect(Filter(rs, CuisineLike(c)), ByRating);
    forall x ensures x in r <==> x in rs && Like(x.cuisineType, "%" + c + "%") {
      SortFilterMember(rs, CuisineLike(c), ByRating, x);
    }
    r
  }

  /** SELECT * FROM restaurants WHERE price_range = p ORDER BY rating DESC. */
  function GetRestaurantsByPriceRange(rs: seq<Restaurant>, p: string): (r: seq<Restaurant>)
    ensures SortedDesc(r, ByRating)
    ensures forall x :: x in r <==> x in rs && x.priceRange == p
  {
    var r := SortDesc(Filter(rs, PricedAt(p)), ByRating);
    SortDescCorrect(Filter(rs, PricedAt(p)), ByRating);
    forall x ensures x in r <==> x in rs && x.priceRange == p {
      SortFilterMember(rs, PricedAt(p), ByRating, x);
    }
    r
  }

  /** Active events joined with their restaurant, highest discount first. */
  function GetActiveEvents(rs: seq<Restaurant>, es: seq<Event>): (r: seq<EventListing>)
    ensures SortedDesc(r, ByDiscount)
    ensures forall x :: x in r <==>
      exists e, rr :: e in es && rr in rs && e.isActive == 1 && rr.id == e.restaurantId && x == Listing(e, rr)
  {
    var active := Filter(es, IsActive);
    var joined := Join(active, rs);
    var r := SortDesc(joined, ByDiscount);
    SortDescCorrect(joined, ByDiscount);
    forall x ensures x in r <==>
      exists e, rr :: e in es && rr in rs && e.isActive == 1 && rr.id == e.restaurantId && x == Listing(e, rr)
    {
      assert x in r <==> x in joined by {
        assert x in r <==> x in multiset(r);
        assert x in joined <==> x in multiset(joined);
      }
      if x in joined {
        var e, rr :| e in active && rr in rs && rr.id == e.restaurantId && x == Listing(e, rr);
        FilterMember(es, IsActive, e);
      }
      if exists e, rr :: e in es && rr in rs && e.isActive == 1 && rr.id == e.restaurantId && x == Listing(e, rr) {
        var e, rr :| e in es && rr in rs && e.isActive == 1 && rr.id == e.restaurantId && x == Listing(e, rr);
        FilterMember(es, IsActive, e);
      }
    }
    r
  }

  /** Active events of type `t` joined with their restaurant, highest discount first. */
  function GetEventsByType(rs: seq<Restaurant>, es: seq<Event>, t: string): (r: seq<EventListing>)
    ensures SortedDesc(r, ByDiscount)
    ensures forall x :: x in r ==> x.event.eventType == t && x.event.isActive == 1
    ensures forall x :: x in r <==>
      exists e, rr :: e in es && rr in rs && e.eventType == t && e.isActive == 1 && rr.id == e.restaurantId && x == Listing(e, rr)
  {
    var chosen := Filter(es, ActiveOfType(t));
    var joined := Join(chosen, rs);
    var r := SortDesc(joined, ByDiscount);
    SortDescCorrect(joined, ByDiscount);
    forall x ensures x in r <==>
      exists e, rr :: e in es && rr in rs && e.eventType == t && e.isActive == 1 && rr.id == e.restaurantId && x == Listing(e, rr)
    {
      assert x in r <==> x in joined by {
        assert x in r <==> x in multiset(r);
        assert x in joined <==> x in multiset(joined);
      }
      if x in joined {
        var e, rr :| e in chosen && rr in rs && rr.id == e.restaurantId && x == Listing(e, rr);
        FilterMember(es, ActiveOfType(t), e);
      }
      if exists e, rr :: e in es && rr in rs && e.eventType == t && e.isActive == 1 && rr.id == e.restaurantId && x == Listing(e, rr) {
        var e, rr :| e in es && rr in rs && e.eventType == t && e.isActive == 1 && rr.id == e.restaurantId && x == Listing(e, rr);
        FilterMember(es, ActiveOfType(t), e);
      }
    }
    r
  }

  /** The events of one type are the active events of that type, in the same order. */
  lemma EventsByTypeRefinesActive(rs: seq<Restaurant>, es: seq<Event>, t: string)
    ensures GetEventsByType(rs, es, t) == Filter(GetActiveEvents(rs, es), ListingOfType(t))
  {
    var joined := Join(Filter(es, IsActive), rs);
    FilterSortCommute(joined, ByDiscount, ListingOfType(t));
    FilterJoin(Filter(es, IsActive), rs, t);
    FilterFilter(es, IsActive, OfType(t), ActiveOfType(t));
  }

  /** SELECT * FROM user_preferences WHERE user_id = u ORDER BY created_at DESC. */
  function GetUserPreferences(ps: seq<Preference>, u: string): (r: seq<Preference>)
    ensures SortedDesc(r, ByCreatedAt)
    ensures forall x :: x in r <==> x in ps && x.userId == u
  {
    var r := SortDesc(Filter(ps, OfUser(u)), ByCreatedAt);
    SortDescCorrect(Filter(ps, OfUser(u)), ByCreatedAt);
    forall x ensures x in r <==> x in ps && x.userId == u {
      SortFilterMember(ps, OfUser(u), ByCreatedAt, x);
    }
    r
  }

  // ---------------------------------------------------------------------
  // How many times each row is returned
  // ---------------------------------------------------------------------

  /** The cuisine query returns each matching row as many times as the table holds it, and no other row. */
  lemma CuisineQueryCount(rs: seq<Restaurant>, c: string, x: Restaurant)
    ensures multiset(GetRestaurantsByCuisine(rs, c))[x] == if Like(x.cuisineType, "%" + c + "%") then multiset(rs)[x] else 0
  {
    SortDescCorrect(Filter(rs, CuisineLike(c)), ByRating);
    FilterCount(rs, CuisineLike(c), x);
  }

  /** The price query returns each row of that price range as many times as the table holds it, and no other row. */
  lemma PriceQueryCount(rs: seq<Restaurant>, p: string, x: Restaurant)
    ensures multiset(GetRestaurantsByPriceRange(rs, p))[x] == if x.priceRange == p then multiset(rs)[x] else 0
  {
    SortDescCorrect(Filter(rs, PricedAt(p)), ByRating);
    FilterCount(rs, PricedAt(p), x);
  }

  /**
   * A listing of an active event occurs once per copy of the event times the
   * restaurant rows that give it; a listing of an inactive event never occurs.
   */
  lemma ActiveEventsCount(rs: seq<Restaurant>, es: seq<Event>, x: EventListing)
    ensures multiset(GetActiveEvents(rs, es))[x] ==
      (if x.event.isActive == 1 then multiset(es)[x.event] else 0) * |Filter(rs, Produces(x))|
  {
    SortDescCorrect(Join(Filter(es, IsActive), rs), ByDiscount);
    JoinCount(Filter(es, IsActive), rs, x);
    FilterCount(es, IsActive, x.event);
  }

  /** The same count for the events of one type. */
  lemma EventsByTypeCount(rs: seq<Restaurant>, es: seq<Event>, t: string, x: EventListing)
    ensures multiset(GetEventsByType(rs, es, t))[x] ==
      (if x.event.eventType == t && x.event.isActive == 1 then multiset(es)[x.event] else 0) * |Filter(rs, Produces(x))|
  {
    SortDescCorrect(Join(Filter(es, ActiveOfType(t)), rs), ByDiscount);
    JoinCount(Filter(es, ActiveOfType(t)), rs, x);
    FilterCount(es, ActiveOfType(t), x.event);
  }

  /** The preference query returns each of the user's rows as many times as the table holds it, and no other row. */
  lemma UserPreferencesCount(ps: seq<Preference>, u: string, x: Preference)
    ensures multiset(GetUserPreferences(ps, u))[x] == if x.userId == u then multiset(ps)[x] else 0
  {
    SortDescCorrect(Filter(ps, OfUser(u)), ByCreatedAt);
    FilterCount(ps, OfUser(u), x);
  }

  // ---------------------------------------------------------------------
  // The database object
  // ---------------------------------------------------------------------

  /** The open database: its tables and SQLite's AUTOINCREMENT counter for `user_preferences`. */
  class RestaurantDatabase {
    var restaurants: seq<Restaurant>
    var events: seq<Event>
    var preferences: seq<Preference>
    var nextId: int

    /** Every stored preference id was handed out before `nextId`. */
    ghost predicate Valid()
      reads this
    {
      forall p :: p in preferences ==> p.id < nextId
    }

    function Snapshot(): Tables
      reads this
    {
      Tables(restaurants, events, preferences)
    }

    constructor (restaurants: seq<Restaurant>, events: seq<Event>, preferences: seq<Preference>, nextId: int)
      requires forall p :: p in preferences ==> p.id < nextId
      ensures Valid()
      ensures Snapshot() == Tables(restaurants, events, preferences) && this.nextId == nextId
    {
      this.restaurants := restaurants;
      this.events := events;
      this.preferences := preferences;
      this.nextId := nextId;
    }

    /** INSERT INTO user_preferences ...; resolves to the new row's id (`lastID`). */
    method SaveUserPreference(userId: string, preferenceType: string, preferenceValue: string, now: int)
      returns (id: int)
      requires Valid()
      modifies this
      ensures Valid()
      ensures id == old(nextId) && nextId == id + 1
      ensures forall p :: p in old(preferences) ==> p.id != id
      ensures preferences == old(preferences) + [Preference(id, userId, preferenceType, preferenceValue, now)]
      ensures restaurants == old(restaurants) && events == old(events)
    {
      id := nextId;
      preferences := preferences + [Preference(id, userId, preferenceType, preferenceValue, now)];
      nextId := nextId + 1;
    }
  }
}
