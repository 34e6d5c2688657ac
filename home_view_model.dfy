/** The home screen's view model (`HomeViewModel.kt`): per-category product
    lists loaded page by page, a product cache, the sort and filter chosen on
    the screen, and search results. Each coroutine the view model launches is
    modelled as running to its end within the call that launches it; what
    the product repository answered is a parameter of that call, and the
    view model keeps a log of the pages it asked for. */
module HomeVm {
  import opened Common
  import opened ProductData
  import opened ProductRepo

  /** `categories`: the home tab and five category tabs. */
  const Categories: seq<string> := ["Home", "Electronics", "Books", "Clothing", "Furniture", "Toys"]
  const LoadCategoryError := "Failed to load category"
  const NoResults := "No results found"

  /** `UiState<T>`. */
  datatype UiState<T> = Idle | Loading | Success(data: T) | Error(message: string)

  /** `HomeScreenData`: the products shown and the best deals strip. */
  datatype HomeScreenData = HomeScreenData(products: seq<Product>, bestDeals: seq<Product>)

  datatype SortOption = PriceLowToHigh | PriceHighToLow

  datatype FilterOption = FreeShipping | InStock | OnSale

  /** `PaginationState`, per category. */
  datatype PaginationState = PaginationState(isLoading: bool, currentPage: int, hasMoreData: bool)

  /** `PaginationState()`: not loading, no page loaded yet, more expected. */
  const DefaultPagination := PaginationState(false, 0, true)

  // ---------------------------------------------------------------------------
  // Filtering

  /** The On Sale filter reads `product.discount!!`: it may only meet products
      that have a discount. */
  predicate Decidable(p: Product, filters: set<FilterOption>) {
    OnSale in filters ==> p.discount.Some?
  }

  predicate AllDecidable(ps: seq<Product>, filters: set<FilterOption>) {
    forall p :: p in ps ==> Decidable(p, filters)
  }

  /** One filter's test. */
  predicate Passes(p: Product, f: FilterOption)
    requires f == OnSale ==> p.discount.Some?
  {
    match f
    case FreeShipping => p.freeShipping
    case InStock => p.stock > 0
    case OnSale => p.discount.value > 0
  }

  /** `applyFilters(product)`: no filter lets everything through, otherwise every
      active filter must pass. */
  predicate ApplyFilters(p: Product, filters: set<FilterOption>)
    requires Decidable(p, filters)
  {
    filters == {} || forall f :: f in filters ==> Passes(p, f)
  }

  /** `a` can be obtained from `b` by dropping elements. */
  predicate IsSubsequence<T(==)>(a: seq<T>, b: seq<T>)
    decreases |b|
  {
    if |a| == 0 then true
    else if |b| == 0 then false
    else (a[0] == b[0] && IsSubsequence(a[1..], b[1..])) || IsSubsequence(a, b[1..])
  }

  /** A subsequence is no longer than the list it is drawn from. */
  lemma {:induction false} SubsequenceNoLonger<T>(a: seq<T>, b: seq<T>)
    requires IsSubsequence(a, b)
    ensures |a| <= |b|
    decreases |b|
  {
    if |a| > 0 {
      if a[0] == b[0] && IsSubsequence(a[1..], b[1..]) {
        SubsequenceNoLonger(a[1..], b[1..]);
      } else {
        SubsequenceNoLonger(a, b[1..]);
      }
    }
  }

  lemma {:induction false} SubsequenceOfItself<T>(s: seq<T>)
    ensures IsSubsequence(s, s)
    decreases |s|
  {
    if |s| > 0 {
      SubsequenceOfItself(s[1..]);
    }
  }

  /** `products.filter(::applyFilters)`: exactly the products passing the active
      filters, in their order. */
  function FilterProducts(ps: seq<Product>, filters: set<FilterOption>): (r: seq<Product>)
    requires AllDecidable(ps, filters)
    ensures forall p :: p in r <==> p in ps && ApplyFilters(p, filters)
    ensures forall p :: multiset(r)[p] == if p in ps && ApplyFilters(p, filters) then multiset(ps)[p] else 0
    ensures IsSubsequence(r, ps)
    decreases |ps|
  {
    if |ps| == 0 then []
    else
      assert multiset(ps) == multiset([ps[0]]) + multiset(ps[1..]) by {
        assert ps == [ps[0]] + ps[1..];
      }
      var rest := FilterProducts(ps[1..], filters);
      if ApplyFilters(ps[0], filters) then
        assert ([ps[0]] + rest)[1..] == rest;
        [ps[0]] + rest
      else
        rest
  }

  /** With no active filter the list is unchanged. */
  lemma {:induction false} NoFilterKeepsAll(ps: seq<Product>)
    ensures FilterProducts(ps, {}) == ps
    decreases |ps|
  {
    if |ps| > 0 {
      NoFilterKeepsAll(ps[1..]);
      assert [ps[0]] + ps[1..] == ps;
    }
  }

  // ---------------------------------------------------------------------------
  // Sorting: `sortedWith` is a stable sort

  /** The sort key: the price, or its negation for high to low. */
  function Rank(option: SortOption): Product -> int {
    match option
    case PriceLowToHigh => (p: Product) => p.price
    case PriceHighToLow => (p: Product) => -p.price
  }

  predicate Sorted<T>(s: seq<T>, key: T -> int) {
    forall i, j :: 0 <= i < j < |s| ==> key(s[i]) <= key(s[j])
  }

  /** Insert `x` before the first element whose key is no lower. */
  function Insert<T>(x: T, t: seq<T>, key: T -> int): seq<T>
    decreases |t|
  {
    if |t| == 0 then [x]
    else if key(x) <= key(t[0]) then [x] + t
    else [t[0]] + Insert(x, t[1..], key)
  }

  /** Inserting adds the one element and keeps the others. */
  lemma {:induction false} InsertPermutes<T>(x: T, t: seq<T>, key: T -> int)
    ensures multiset(Insert(x, t, key)) == multiset(t) + multiset{x}
    decreases |t|
  {
    if |t| > 0 && key(x) > key(t[0]) {
      InsertPermutes(x, t[1..], key);
      assert t == [t[0]] + t[1..];
    }
  }

  lemma {:induction false} InsertSorted<T>(x: T, t: seq<T>, key: T -> int)
    requires Sorted(t, key)
    ensures Sorted(Insert(x, t, key), key)
    decreases |t|
  {
    if |t| > 0 {
      SortedHead(t, key);
      if key(x) <= key(t[0]) {
        SortedCons(x, t, key);
      } else {
        assert Sorted(t[1..], key);
        InsertSorted(x, t[1..], key);
        assert forall y :: y in t[1..] ==> y in t;
        InsertBounded(x, t[1..], key, key(t[0]));
        SortedCons(t[0], Insert(x, t[1..], key), key);
      }
    }
  }

  /** In a sorted list no element has a lower key than the first. */
  lemma SortedHead<T>(t: seq<T>, key: T -> int)
    requires Sorted(t, key) && |t| > 0
    ensures forall y :: y in t ==> key(t[0]) <= key(y)
  {
    forall y | y in t ensures key(t[0]) <= key(y) {
      var k :| 0 <= k < |t| && t[k] == y;
    }
  }

  /** A sorted list stays sorted under a head whose key is no higher than any of its keys. */
  lemma SortedCons<T>(h: T, rest: seq<T>, key: T -> int)
    requires Sorted(rest, key)
    requires forall y :: y in rest ==> key(h) <= key(y)
    ensures Sorted([h] + rest, key)
  {
    var r := [h] + rest;
    forall i, j | 0 <= i < j < |r| ensures key(r[i]) <= key(r[j]) {
      assert r[j] == rest[j - 1];
      if i > 0 {
        assert r[i] == rest[i - 1];
      } else {
        assert rest[j - 1] in rest;
      }
    }
  }

  /** A lower bound on every key survives inserting an element above it. */
  lemma {:induction false} InsertBounded<T>(x: T, t: seq<T>, key: T -> int, b: int)
    requires b <= key(x)
    requires forall y :: y in t ==> b <= key(y)
    ensures forall y :: y in Insert(x, t, key) ==> b <= key(y)
    decreases |t|
  {
    if |t| > 0 && key(x) > key(t[0]) {
      assert forall y :: y in t[1..] ==> y in t;
      InsertBounded(x, t[1..], key, b);
    }
  }

  /** The stable insertion sort by key. */
  function SortByKey<T>(s: seq<T>, key: T -> int): seq<T>
    decreases |s|
  {
    if |s| == 0 then []
    else Insert(s[0], SortByKey(s[1..], key), key)
  }

  /** A non-empty list holds its head and its tail. */
  lemma MultisetOfCons<T>(s: seq<T>)
    requires |s| > 0
    ensures multiset(s) == multiset(s[1..]) + multiset{s[0]}
  {
    assert s == [s[0]] + s[1..];
  }

  /** Sorting rearranges the elements and neither adds nor drops any. */
  lemma {:induction false} SortPermutes<T>(s: seq<T>, key: T -> int)
    ensures multiset(SortByKey(s, key)) == multiset(s)
    decreases |s|
  {
    if |s| > 0 {
      var sortedTail := SortByKey(s[1..], key);
      assert SortByKey(s, key) == Insert(s[0], sortedTail, key);
      calc {
        multiset(SortByKey(s, key));
        { InsertPermutes(s[0], sortedTail, key); }
        multiset(sortedTail) + multiset{s[0]};
        { SortPermutes(s[1..], key); }
        multiset(s[1..]) + multiset{s[0]};
        { MultisetOfCons(s); }
        multiset(s);
      }
    }
  }

  lemma {:induction false} SortSorted<T>(s: seq<T>, key: T -> int)
    ensures Sorted(SortByKey(s, key), key)
    decreases |s|
  {
    if |s| > 0 {
      SortSorted(s[1..], key);
      InsertSorted(s[0], SortByKey(s[1..], key), key);
    }
  }

  /** The elements with key `v`, in order. */
  function Tied<T>(s: seq<T>, key: T -> int, v: int): seq<T>
    decreases |s|
  {
    if |s| == 0 then []
    else (if key(s[0]) == v then [s[0]] else []) + Tied(s[1..], key, v)
  }

  /** `Tied` of a list with a first element. */
  lemma TiedCons<T>(y: T, rest: seq<T>, key: T -> int, v: int)
    ensures Tied([y] + rest, key, v) == (if key(y) == v then [y] else []) + Tied(rest, key, v)
  {
    assert ([y] + rest)[0] == y && ([y] + rest)[1..] == rest;
  }

  lemma {:induction false} TiedInsert<T>(x: T, t: seq<T>, key: T -> int, v: int)
    ensures Tied(Insert(x, t, key), key, v) == (if key(x) == v then [x] else []) + Tied(t, key, v)
    decreases |t|
  {
    if |t| == 0 {
      TiedCons(x, [], key, v);
      assert [x] + [] == [x];
    } else if key(x) <= key(t[0]) {
      TiedCons(x, t, key, v);
    } else {
      var rest := Insert(x, t[1..], key);
      var mx: seq<T> := if key(x) == v then [x] else [];
      var m0: seq<T> := if key(t[0]) == v then [t[0]] else [];
      var tail := Tied(t[1..], key, v);
      calc {
        Tied(Insert(x, t, key), key, v);
        { assert Insert(x, t, key) == [t[0]] + rest; }
        Tied([t[0]] + rest, key, v);
        { TiedCons(t[0], rest, key, v); }
        m0 + Tied(rest, key, v);
        { TiedInsert(x, t[1..], key, v); }
        m0 + (mx + tail);
        { SwapEmpty(m0, mx, tail); }
        mx + (m0 + tail);
        { TiedCons(t[0], t[1..], key, v); assert t == [t[0]] + t[1..]; }
        mx + Tied(t, key, v);
      }
    }
  }

  /** Of two lists one of which is empty, either may go first. */
  lemma SwapEmpty<T>(a: seq<T>, b: seq<T>, c: seq<T>)
    requires a == [] || b == []
    ensures a + (b + c) == b + (a + c)
  {
    if a == [] {
      assert a + (b + c) == b + c && a + c == c;
    } else {
      assert b + c == c && b + (a + c) == a + c;
    }
  }

  /** Stability: elements with equal keys keep their relative order. */
  lemma {:induction false} SortStable<T>(s: seq<T>, key: T -> int, v: int)
    ensures Tied(SortByKey(s, key), key, v) == Tied(s, key, v)
    decreases |s|
  {
    if |s| > 0 {
      SortStable(s[1..], key, v);
      TiedInsert(s[0], SortByKey(s[1..], key), key, v);
    }
  }

  /** Sorting a list that is already in order leaves it as it is. */
  lemma {:induction false} SortKeepsSorted<T>(s: seq<T>, key: T -> int)
    requires Sorted(s, key)
    ensures SortByKey(s, key) == s
    decreases |s|
  {
    if |s| > 0 {
      var tail := s[1..];
      assert Sorted(tail, key);
      calc {
        SortByKey(s, key);
        Insert(s[0], SortByKey(tail, key), key);
        { SortKeepsSorted(tail, key); }
        Insert(s[0], tail, key);
        { if |tail| > 0 { assert tail[0] == s[1]; } }
        [s[0]] + tail;
        { assert s == [s[0]] + tail; }
        s;
      }
    }
  }

  /** `applySortAndFilter(products)`: the filtered list, stably sorted by price when
      a sort is chosen; with no sort the comparator ties everything and the
      order is kept. */
  function ApplySortAndFilter(products: seq<Product>, sort: Option<SortOption>, filters: set<FilterOption>)
    : (r: seq<Product>)
    requires AllDecidable(products, filters)
    ensures |r| <= |products|
  {
    var kept := FilterProducts(products, filters);
    SubsequenceNoLonger(kept, products);
    match sort
    case None => kept
    case Some(option) =>
      var r := SortByKey(kept, Rank(option));
      SortPermutes(kept, Rank(option));
      assert |r| == |multiset(r)|;
      r
  }

  /** What `applySortAndFilter` returns: exactly the products that pass every
      active filter, each as often as the filter keeps it, in their original
      order without a sort and by price with one. */
  lemma SortAndFilterSpec(products: seq<Product>, sort: Option<SortOption>, filters: set<FilterOption>)
    requires AllDecidable(products, filters)
    ensures var r := ApplySortAndFilter(products, sort, filters);
            && (forall p :: p in r <==> p in products && ApplyFilters(p, filters))
            && multiset(r) == multiset(FilterProducts(products, filters))
            && (sort.None? ==> IsSubsequence(r, products))
            && (sort == Some(PriceLowToHigh) ==> forall i, j :: 0 <= i < j < |r| ==> r[i].price <= r[j].price)
            && (sort == Some(PriceHighToLow) ==> forall i, j :: 0 <= i < j < |r| ==> r[i].price >= r[j].price)
  {
    var kept := FilterProducts(products, filters);
    match sort
    case None =>
    case Some(option) =>
      var r := SortByKey(kept, Rank(option));
      SortSorted(kept, Rank(option));
      SortPermutes(kept, Rank(option));
      assert forall p :: p in r <==> p in kept by {
        forall p ensures p in r <==> p in kept {
          assert p in r <==> p in multiset(r);
        }
      }
      assert forall i, j :: 0 <= i < j < |r| ==> Rank(option)(r[i]) <= Rank(option)(r[j]);
  }

  /** No filter and no sort: `applySortAndFilter` returns its input. */
  lemma NoSortNoFilterIsIdentity(products: seq<Product>)
    ensures ApplySortAndFilter(products, None, {}) == products
  {
    NoFilterKeepsAll(products);
  }

  /** The sort is stable: the products of one price come out in the order the
      filter left them. */
  lemma SortAndFilterStable(products: seq<Product>, option: SortOption, filters: set<FilterOption>, price: int)
    requires AllDecidable(products, filters)
    ensures var key := Rank(option);
            var v := if option == PriceLowToHigh then price else -price;
            Tied(ApplySortAndFilter(products, Some(option), filters), key, v)
            == Tied(FilterProducts(products, filters), key, v)
  {
    SortStable(FilterProducts(products, filters), Rank(option), if option == PriceLowToHigh then price else -price);
  }

  /** Sorting an already sorted result again changes nothing, which is why
      re-applying a sort to shown search results is harmless. */
  lemma ResortIsIdentity(products: seq<Product>, option: SortOption, filters: set<FilterOption>)
    requires AllDecidable(products, filters)
    ensures var r := ApplySortAndFilter(products, Some(option), filters);
            AllDecidable(r, filters) && ApplySortAndFilter(r, Some(option), {}) == r
  {
    var r := ApplySortAndFilter(products, Some(option), filters);
    SortAndFilterSpec(products, Some(option), filters);
    assert AllDecidable(r, filters);
    SortSorted(FilterProducts(products, filters), Rank(option));
    NoFilterKeepsAll(r);
    SortKeepsSorted(r, Rank(option));
  }

  /** `toggleFilterOption`'s new set: the option flips, the others stay. */
  function Toggle(filters: set<FilterOption>, option: FilterOption): (r: set<FilterOption>)
    ensures option in r <==> option !in filters
    ensures forall f :: f != option ==> (f in r <==> f in filters)
  {
    if option in filters then filters - {option} else filters + {option}
  }

  /** Toggling the same option twice restores the filter set. */
  lemma ToggleTwice(filters: set<FilterOption>, option: FilterOption)
    ensures Toggle(Toggle(filters, option), option) == filters
  {
  }

  // ---------------------------------------------------------------------------
  // Pagination and merging

  /** `updatePaginationState(category, update)`: the category's entry (the default
      when it has none) goes through `update`; every other entry stays. */
  function UpdatePagination(m: map<int, PaginationState>, category: int,
                            update: PaginationState -> PaginationState)
    : (r: map<int, PaginationState>)
    ensures r.Keys == m.Keys + {category}
    ensures r[category] == update(if category in m then m[category] else DefaultPagination)
    ensures forall c :: c in m && c != category ==> r[c] == m[c]
  {
    m[category := update(if category in m then m[category] else DefaultPagination)]
  }

  /** The ids of a list's products. */
  function IdsOf(ps: seq<Product>): set<string> {
    set p | p in ps :: p.id
  }

  /** `newProducts.filter { it.id !in existingIds }`. */
  function NewOnly(ids: set<string>, page: seq<Product>): (r: seq<Product>)
    ensures forall p :: p in r <==> p in page && p.id !in ids
    ensures forall p :: multiset(r)[p] == if p.id !in ids then multiset(page)[p] else 0
    ensures IsSubsequence(r, page)
    decreases |page|
  {
    if |page| == 0 then []
    else
      assert multiset(page) == multiset([page[0]]) + multiset(page[1..]) by {
        assert page == [page[0]] + page[1..];
      }
      var rest := NewOnly(ids, page[1..]);
      if page[0].id !in ids then
        assert ([page[0]] + rest)[1..] == rest;
        [page[0]] + rest
      else
        rest
  }

  /** The merge of `loadMoreProducts`: the old list stays a prefix, nothing
      appended has an id already listed, and every product of the page with a
      new id is appended. */
  lemma MergeKeepsPrefix(existing: seq<Product>, page: seq<Product>)
    ensures var merged := existing + NewOnly(IdsOf(existing), page);
            && merged[..|existing|] == existing
            && (forall p :: p in merged[|existing|..] ==> p.id !in IdsOf(existing))
            && (forall p :: p in page && p.id !in IdsOf(existing) ==> p in merged[|existing|..])
  {
    var merged := existing + NewOnly(IdsOf(existing), page);
    assert merged[|existing|..] == NewOnly(IdsOf(existing), page);
  }

  /** The merge does not deduplicate within the new page: a product with an
      unseen id is appended as often as the page repeats it. */
  lemma MergeKeepsPageDuplicates(existing: seq<Product>, page: seq<Product>)
    ensures var appended := (existing + NewOnly(IdsOf(existing), page))[|existing|..];
            forall p: Product :: p.id !in IdsOf(existing) ==> multiset(appended)[p] == multiset(page)[p]
  {
    assert (existing + NewOnly(IdsOf(existing), page))[|existing|..] == NewOnly(IdsOf(existing), page);
  }

  /** `distinctBy { it.id }` with ids in `seen` already taken: the first product
      of each id not yet seen, in order. */
  function DistinctFrom(ps: seq<Product>, seen: set<string>): (r: seq<Product>)
    ensures forall p :: p in r ==> p in ps && p.id !in seen
    ensures IdsOf(r) == IdsOf(ps) - seen
    ensures forall i, j :: 0 <= i < j < |r| ==> r[i].id != r[j].id
    ensures IsSubsequence(r, ps)
    decreases |ps|
  {
    if |ps| == 0 then []
    else if ps[0].id in seen then
      var rest := DistinctFrom(ps[1..], seen);
      assert IdsOf(ps) == IdsOf(ps[1..]) + {ps[0].id} by {
        assert ps == [ps[0]] + ps[1..];
      }
      rest
    else
      var rest := DistinctFrom(ps[1..], seen + {ps[0].id});
      assert ([ps[0]] + rest)[1..] == rest;
      assert IdsOf(ps) == IdsOf(ps[1..]) + {ps[0].id} by {
        assert ps == [ps[0]] + ps[1..];
      }
      assert IdsOf([ps[0]] + rest) == IdsOf(rest) + {ps[0].id} by {
        assert forall p :: p in [ps[0]] + rest <==> p == ps[0] || p in rest;
      }
      [ps[0]] + rest
  }

  /** `products.distinctBy { it.id }`. */
  function DistinctById(ps: seq<Product>): (r: seq<Product>)
    ensures forall p :: p in r ==> p in ps
    ensures IdsOf(r) == IdsOf(ps)
    ensures forall i, j :: 0 <= i < j < |r| ==> r[i].id != r[j].id
  {
    DistinctFrom(ps, {})
  }

  /** The product `distinctBy` keeps for an id is its first occurrence. */
  lemma {:induction false} DistinctKeepsFirst(ps: seq<Product>, seen: set<string>, j: nat)
    requires j < |ps| && ps[j].id !in seen
    requires forall k :: 0 <= k < j ==> ps[k].id != ps[j].id
    ensures ps[j] in DistinctFrom(ps, seen)
    decreases |ps|
  {
    if j > 0 {
      var seen' := if ps[0].id in seen then seen else seen + {ps[0].id};
      assert ps[1..][j - 1] == ps[j];
      DistinctKeepsFirst(ps[1..], seen', j - 1);
    }
  }

  /** The cache after `products.forEach { cache[it.id] = it }`. */
  function Cached(cache: map<string, Product>, ps: seq<Product>): map<string, Product>
    decreases |ps|
  {
    if |ps| == 0 then cache
    else
      var n := |ps| - 1;
      Cached(cache, ps[..n])[ps[n].id := ps[n]]
  }

  /** Caching adds exactly the listed ids and leaves every other entry as it was. */
  lemma {:induction false} CachedKeys(cache: map<string, Product>, ps: seq<Product>)
    ensures Cached(cache, ps).Keys == cache.Keys + IdsOf(ps)
    ensures forall id :: id in cache && id !in IdsOf(ps) ==> Cached(cache, ps)[id] == cache[id]
    decreases |ps|
  {
    if |ps| > 0 {
      var n := |ps| - 1;
      CachedKeys(cache, ps[..n]);
      assert IdsOf(ps) == IdsOf(ps[..n]) + {ps[n].id} by {
        assert ps == ps[..n] + [ps[n]];
        assert forall p :: p in ps <==> p in ps[..n] || p == ps[n];
      }
    }
  }

  /** The cached product for an id is the last listed product with that id. */
  lemma {:induction false} CachedLastWins(cache: map<string, Product>, ps: seq<Product>, i: nat)
    requires i < |ps|
    requires forall j :: i < j < |ps| ==> ps[j].id != ps[i].id
    ensures ps[i].id in Cached(cache, ps) && Cached(cache, ps)[ps[i].id] == ps[i]
    decreases |ps|
  {
    var n := |ps| - 1;
    var front := ps[..n];
    assert Cached(cache, ps) == Cached(cache, front)[ps[n].id := ps[n]];
    if i < n {
      assert front[i] == ps[i];
      forall j | i < j < |front| ensures front[j].id != front[i].id {
        assert front[j] == ps[j];
      }
      CachedLastWins(cache, front, i);
      assert ps[n].id != ps[i].id;
    }
  }

  /** `categories[index]` does not throw. */
  predicate InRange(index: int) {
    0 <= index < |Categories|
  }

  /** Filters can be decided on a sublist when they can on the whole list. */
  lemma DecidableOnSublist(ps: seq<Product>, sub: seq<Product>, filters: set<FilterOption>)
    requires AllDecidable(ps, filters)
    requires forall p :: p in sub ==> p in ps
    ensures AllDecidable(sub, filters)
  {
  }

  /** Writing a key twice keeps the second value. */
  lemma OverwriteTwice<K, V>(m: map<K, V>, k: K, x: V, y: V)
    ensures m[k := x][k := y] == m[k := y]
  {
  }

  /** The category a tab queries: none for the home tab, which lists everything. */
  function CategoryName(index: int): (r: Option<string>)
    requires InRange(index)
    ensures r.None? <==> index == 0
  {
    if index == 0 then None else Some(Categories[index])
  }

  /** `result.getOrNull().orEmpty()`. */
  function PageOf(r: Result<seq<Product>>): (ps: seq<Product>)
    ensures r.Success? ==> ps == r.value
    ensures r.Failure? ==> ps == []
  {
    match r
    case Success(v) => v
    case Failure(_) => []
  }

  /** `categoryProducts[index] ?: emptyList()`. */
  function Listed(categoryProducts: map<int, seq<Product>>, index: int): (ps: seq<Product>)
    ensures index in categoryProducts ==> ps == categoryProducts[index]
    ensures index !in categoryProducts ==> ps == []
  {
    if index in categoryProducts then categoryProducts[index] else []
  }

  /** A page the view model asked the product repository for. */
  datatype PageRequest =
    | CategoryPage(category: Option<string>, page: int)   // fetchProductsByCategory(category, page)
    | BestDealsPage(page: int)                            // fetchBestDeals(page)

  class HomeViewModel {
    /** The message of the exception `categories[index]` throws for an index
        outside the six tabs; its text is the runtime's. */
    const indexErrorMessage: string
    var uiState: UiState<HomeScreenData>
    var searchResults: UiState<seq<Product>>
    var selectedCategoryIndex: int
    var paginationState: map<int, PaginationState>
    var productsCache: map<string, Product>
    var sortState: Option<SortOption>
    var filterState: set<FilterOption>
    var categoryProducts: map<int, seq<Product>>
    var isLoading: bool
    var bestDeals: seq<Product>
    var initialLoadDone: bool
    /** The repository requests made, in order. */
    var requests: seq<PageRequest>

    /** The view model as constructed, after `init` gave every tab the default
        pagination state. */
    constructor (indexErrorMessage: string)
      ensures this.indexErrorMessage == indexErrorMessage
      ensures uiState == Loading && searchResults == Idle && selectedCategoryIndex == 0
      ensures forall c :: c in paginationState <==> 0 <= c < |Categories|
      ensures forall c :: c in paginationState ==> paginationState[c] == DefaultPagination
      ensures productsCache == map[] && sortState == None && filterState == {}
      ensures categoryProducts == map[] && !isLoading && bestDeals == [] && !initialLoadDone
      ensures requests == []
    {
      this.indexErrorMessage := indexErrorMessage;
      uiState := Loading;
      searchResults := Idle;
      selectedCategoryIndex := 0;
      var pagination: map<int, PaginationState> := map[];
      for index := 0 to |Categories|
        invariant forall c :: c in pagination <==> 0 <= c < index
        invariant forall c :: c in pagination ==> pagination[c] == DefaultPagination
      {
        if index !in pagination {
          pagination := pagination[index := DefaultPagination];
        }
      }
      paginationState := pagination;
      productsCache := map[];
      sortState := None;
      filterState := {};
      categoryProducts := map[];
      isLoading := false;
      bestDeals := [];
      initialLoadDone := false;
      requests := [];
    }

    /** A tab's pagination state, the default when it has none. */
    function Current(category: int): PaginationState
      reads this`paginationState
    {
      if category in paginationState then paginationState[category] else DefaultPagination
    }

    /** The screen showing a tab's products: sorted and filtered, with the best
        deals on the home tab only. */
    function LoadedScreen(index: int, products: seq<Product>): HomeScreenData
      requires AllDecidable(products, filterState)
      reads this`sortState, this`filterState, this`bestDeals
    {
      HomeScreenData(ApplySortAndFilter(products, sortState, filterState),
                     if index == 0 then bestDeals else [])
    }

    /** `cacheProducts(products)`. */
    method CacheProducts(products: seq<Product>)
      modifies this`productsCache
      ensures productsCache == Cached(old(productsCache), products)
    {
      for k := 0 to |products|
        invariant productsCache == Cached(old(productsCache), products[..k])
      {
        assert products[..k + 1][..k] == products[..k];
        productsCache := productsCache[products[k].id := products[k]];
      }
      assert products[..|products|] == products;
    }

    /** `updateUiStateWithLoadedData(categoryIndex)`. */
    method UpdateUiStateWithLoadedData(categoryIndex: int)
      requires AllDecidable(Listed(categoryProducts, categoryIndex), filterState)
      modifies this`uiState
      ensures uiState == UiState.Success(LoadedScreen(categoryIndex, Listed(categoryProducts, categoryIndex)))
    {
      var productsForCategory := Listed(categoryProducts, categoryIndex);
      uiState := UiState.Success(HomeScreenData(ApplySortAndFilter(productsForCategory, sortState, filterState),
                                        if categoryIndex == 0 then bestDeals else []));
    }

    /** `loadCategoryData(index)`: unless a load is running, fetch the tab's first
        page, cache it, keep it without repeated ids, start the tab's pagination
        at page 1 and show it. An index outside the tabs shows the exception's
        message instead. */
    method LoadCategoryData(index: int, fetched: Result<seq<Product>>)
      requires !isLoading && InRange(index) ==> AllDecidable(PageOf(fetched), filterState)
      modifies this`isLoading, this`productsCache, this`categoryProducts, this`paginationState, this`uiState,
               this`requests
      ensures old(isLoading) ==>
                isLoading && uiState == old(uiState) && productsCache == old(productsCache)
                && categoryProducts == old(categoryProducts) && paginationState == old(paginationState)
                && requests == old(requests)
      ensures !old(isLoading) ==> !isLoading
      ensures !old(isLoading) && !InRange(index) ==>
                uiState == Error(indexErrorMessage) && productsCache == old(productsCache)
                && categoryProducts == old(categoryProducts) && paginationState == old(paginationState)
                && requests == old(requests)
      ensures !old(isLoading) && InRange(index) ==>
                var page := PageOf(fetched);
                && requests == old(requests) + [CategoryPage(CategoryName(index), 1)]
                && productsCache == Cached(old(productsCache), page)
                && categoryProducts == old(categoryProducts)[index := DistinctById(page)]
                && paginationState == old(paginationState)[index := PaginationState(false, 1, |page| >= PageSize)]
                && uiState == UiState.Success(LoadedScreen(index, DistinctById(page)))
    {
      if !isLoading {
        isLoading := true;
        if !InRange(index) {
          uiState := Error(indexErrorMessage);
        } else {
          var categoryName := if index == 0 then None else Some(Categories[index]);
          requests := requests + [CategoryPage(categoryName, 1)];
          var products := PageOf(fetched);
          StoreFirstPage(index, products);
          UpdateUiStateWithLoadedData(index);
        }
        isLoading := false;
      }
    }

    /** The part of `loadCategoryData` that stores a fetched first page: cache
        it, keep it without repeated ids and start the tab's pagination. */
    method StoreFirstPage(index: int, products: seq<Product>)
      requires AllDecidable(products, filterState)
      modifies this`productsCache, this`categoryProducts, this`paginationState
      ensures productsCache == Cached(old(productsCache), products)
      ensures categoryProducts == old(categoryProducts)[index := DistinctById(products)]
      ensures paginationState == old(paginationState)[index := PaginationState(false, 1, |products| >= PageSize)]
      ensures AllDecidable(Listed(categoryProducts, index), filterState)
    {
      CacheProducts(products);
      var distinct := DistinctById(products);
      DecidableOnSublist(products, distinct, filterState);
      categoryProducts := categoryProducts[index := distinct];
      paginationState := UpdatePagination(paginationState, index,
                                          (s: PaginationState) => PaginationState(false, 1, |products| >= PageSize));
    }

    /** `loadInitialData()`, as written: it sets the loading flag and then calls
        `loadCategoryData(0)`, which sees the flag and returns, so the home tab
        is never loaded; only the best deals are fetched. */
    method LoadInitialData(fetchedDeals: Result<seq<Product>>)
      modifies this`isLoading, this`productsCache, this`categoryProducts, this`paginationState, this`uiState,
               this`bestDeals, this`initialLoadDone, this`requests
      ensures old(isLoading) ==>
                isLoading && bestDeals == old(bestDeals) && initialLoadDone == old(initialLoadDone)
                && requests == old(requests)
      ensures !old(isLoading) ==>
                !isLoading && initialLoadDone
                && bestDeals == (if old(bestDeals) == [] then PageOf(fetchedDeals) else old(bestDeals))
                && requests == old(requests) + (if old(bestDeals) == [] then [BestDealsPage(1)] else [])
      ensures uiState == old(uiState) && categoryProducts == old(categoryProducts)
      ensures paginationState == old(paginationState) && productsCache == old(productsCache)
    {
      if isLoading {
        return;
      }
      isLoading := true;
      if |bestDeals| == 0 {
        requests := requests + [BestDealsPage(1)];
        bestDeals := PageOf(fetchedDeals);
      }
      LoadCategoryData(0, Failure(""));
      initialLoadDone := true;
      isLoading := false;
    }

    /** `loadInitialData()` as evidently intended: the flag is released before
        the home tab's load, so the home tab's first page is shown. */
    method LoadInitialDataReleasingFlag(fetchedDeals: Result<seq<Product>>, fetchedHome: Result<seq<Product>>)
      requires !isLoading ==> AllDecidable(PageOf(fetchedHome), filterState)
      modifies this`isLoading, this`productsCache, this`categoryProducts, this`paginationState, this`uiState,
               this`bestDeals, this`initialLoadDone, this`requests
      ensures old(isLoading) ==>
                && isLoading && initialLoadDone == old(initialLoadDone)
                && bestDeals == old(bestDeals) && uiState == old(uiState) && requests == old(requests)
                && categoryProducts == old(categoryProducts) && paginationState == old(paginationState)
                && productsCache == old(productsCache)
      ensures !old(isLoading) ==>
                var page := PageOf(fetchedHome);
                && !isLoading && initialLoadDone
                && bestDeals == (if old(bestDeals) == [] then PageOf(fetchedDeals) else old(bestDeals))
                && requests == old(requests) + (if old(bestDeals) == [] then [BestDealsPage(1)] else [])
                                + [CategoryPage(None, 1)]
                && productsCache == Cached(old(productsCache), page)
                && categoryProducts == old(categoryProducts)[0 := DistinctById(page)]
                && paginationState == old(paginationState)[0 := PaginationState(false, 1, |page| >= PageSize)]
                && uiState == UiState.Success(LoadedScreen(0, DistinctById(page)))
    {
      if !isLoading {
        LoadReleasingFlag(fetchedDeals, fetchedHome);
      }
    }

    /** The body of `LoadInitialDataReleasingFlag` once the guard has let it
        through: the best deals, then the home tab's first page. */
    method LoadReleasingFlag(fetchedDeals: Result<seq<Product>>, fetchedHome: Result<seq<Product>>)
      requires !isLoading && AllDecidable(PageOf(fetchedHome), filterState)
      modifies this`isLoading, this`productsCache, this`categoryProducts, this`paginationState, this`uiState,
               this`bestDeals, this`initialLoadDone, this`requests
      ensures var page := PageOf(fetchedHome);
              && !isLoading && initialLoadDone
              && bestDeals == (if old(bestDeals) == [] then PageOf(fetchedDeals) else old(bestDeals))
              && requests == old(requests) + (if old(bestDeals) == [] then [BestDealsPage(1)] else [])
                              + [CategoryPage(None, 1)]
              && productsCache == Cached(old(productsCache), page)
              && categoryProducts == old(categoryProducts)[0 := DistinctById(page)]
              && paginationState == old(paginationState)[0 := PaginationState(false, 1, |page| >= PageSize)]
              && uiState == UiState.Success(LoadedScreen(0, DistinctById(page)))
    {
      isLoading := true;
      if |bestDeals| == 0 {
        requests := requests + [BestDealsPage(1)];
        bestDeals := PageOf(fetchedDeals);
      }
      isLoading := false;
      assert InRange(0) && CategoryName(0) == None;
      LoadCategoryData(0, fetchedHome);
      initialLoadDone := true;
    }

    /** `fetchDataIfNeeded()`. */
    method FetchDataIfNeeded(fetchedDeals: Result<seq<Product>>)
      modifies this`isLoading, this`productsCache, this`categoryProducts, this`paginationState, this`uiState,
               this`bestDeals, this`initialLoadDone, this`requests
      ensures old(initialLoadDone) ==>
                initialLoadDone && bestDeals == old(bestDeals) && isLoading == old(isLoading)
                && requests == old(requests)
      ensures !old(initialLoadDone) && old(isLoading) ==>
                !initialLoadDone && isLoading && bestDeals == old(bestDeals) && requests == old(requests)
      ensures !old(initialLoadDone) && !old(isLoading) ==>
                initialLoadDone && !isLoading
                && bestDeals == (if old(bestDeals) == [] then PageOf(fetchedDeals) else old(bestDeals))
                && requests == old(requests) + (if old(bestDeals) == [] then [BestDealsPage(1)] else [])
      ensures uiState == old(uiState) && categoryProducts == old(categoryProducts)
      ensures paginationState == old(paginationState) && productsCache == old(productsCache)
    {
      if !initialLoadDone {
        LoadInitialData(fetchedDeals);
      }
    }

    /** Whether `selectCategory` can show a tab from what is already loaded: it
        has products and its pagination is not at page 0. */
    predicate Reusable(index: int)
      reads this`categoryProducts, this`paginationState
    {
      index in categoryProducts && |categoryProducts[index]| > 0
      && (index !in paginationState || paginationState[index].currentPage != 0)
    }

    /** `selectCategory(index)`: nothing for the selected tab; otherwise select it,
        show loading, and then either the tab's loaded products or a fresh load. */
    method SelectCategory(index: int, fetched: Result<seq<Product>>)
      requires index != selectedCategoryIndex ==>
                 if Reusable(index) then AllDecidable(categoryProducts[index], filterState)
                 else !isLoading && InRange(index) ==> AllDecidable(PageOf(fetched), filterState)
      modifies this`selectedCategoryIndex, this`isLoading, this`productsCache, this`categoryProducts,
               this`paginationState, this`uiState, this`requests
      ensures index == old(selectedCategoryIndex) ==>
                selectedCategoryIndex == old(selectedCategoryIndex) && uiState == old(uiState)
                && isLoading == old(isLoading) && productsCache == old(productsCache)
                && categoryProducts == old(categoryProducts) && paginationState == old(paginationState)
                && requests == old(requests)
      ensures index != old(selectedCategoryIndex) ==> selectedCategoryIndex == index
      ensures index != old(selectedCategoryIndex) && old(Reusable(index)) ==>
                uiState == UiState.Success(LoadedScreen(index, old(categoryProducts)[index]))
                && isLoading == old(isLoading) && productsCache == old(productsCache)
                && categoryProducts == old(categoryProducts) && paginationState == old(paginationState)
                && requests == old(requests)
      ensures index != old(selectedCategoryIndex) && !old(Reusable(index)) && old(isLoading) ==>
                uiState == Loading && isLoading && productsCache == old(productsCache)
                && categoryProducts == old(categoryProducts) && paginationState == old(paginationState)
                && requests == old(requests)
      ensures index != old(selectedCategoryIndex) && !old(Reusable(index)) && !old(isLoading) && !InRange(index) ==>
                uiState == Error(indexErrorMessage) && !isLoading && categoryProducts == old(categoryProducts)
                && requests == old(requests) && productsCache == old(productsCache)
                && paginationState == old(paginationState)
      ensures index != old(selectedCategoryIndex) && !old(Reusable(index)) && !old(isLoading) && InRange(index) ==>
                var page := PageOf(fetched);
                && !isLoading
                && requests == old(requests) + [CategoryPage(CategoryName(index), 1)]
                && productsCache == Cached(old(productsCache), page)
                && categoryProducts == old(categoryProducts)[index := DistinctById(page)]
                && paginationState == old(paginationState)[index := PaginationState(false, 1, |page| >= PageSize)]
                && uiState == UiState.Success(LoadedScreen(index, DistinctById(page)))
    {
      if selectedCategoryIndex == index {
        return;
      }
      selectedCategoryIndex := index;
      uiState := Loading;
      if Reusable(index) {
        UpdateUiStateWithLoadedData(index);
      } else {
        LoadCategoryData(index, fetched);
      }
    }

    /** `loadMoreProducts()`: for the selected tab, unless it is loading or has no
        more data, fetch the next page, cache it, append the products whose ids
        are not listed yet, advance the page and show the tab. An index outside
        the tabs only clears the tab's loading flag. */
    method LoadMoreProducts(fetched: Result<seq<Product>>)
      requires var c := selectedCategoryIndex;
               !Current(c).isLoading && Current(c).hasMoreData && InRange(c) ==>
                 AllDecidable(Listed(categoryProducts, c) + PageOf(fetched), filterState)
      modifies this`productsCache, this`categoryProducts, this`paginationState, this`uiState, this`requests
      ensures var c := selectedCategoryIndex;
              var cur := old(Current(c));
              (cur.isLoading || !cur.hasMoreData) ==>
                productsCache == old(productsCache) && categoryProducts == old(categoryProducts)
                && paginationState == old(paginationState) && uiState == old(uiState)
                && requests == old(requests)
      ensures var c := selectedCategoryIndex;
              var cur := old(Current(c));
              !cur.isLoading && cur.hasMoreData && !InRange(c) ==>
                productsCache == old(productsCache) && categoryProducts == old(categoryProducts)
                && paginationState == old(paginationState)[c := cur]
                && uiState == old(uiState) && requests == old(requests)
      ensures var c := selectedCategoryIndex;
              var cur := old(Current(c));
              !cur.isLoading && cur.hasMoreData && InRange(c) ==> LoadedMore(c, cur, fetched)
    {
      var category := selectedCategoryIndex;
      var currentState := Current(category);
      if !currentState.isLoading && currentState.hasMoreData {
        LaunchLoadMore(category, currentState, fetched);
      }
    }

    /** The state after the next page `fetched` of tab `c`, whose state was
        `cur`, is stored and shown: the request for the page is logged, the
        page cached, its products with new ids appended to the tab, the page
        counted, more data expected only after a full page, and the tab shown. */
    twostate predicate LoadedMore(c: int, cur: PaginationState, fetched: Result<seq<Product>>)
      requires InRange(c)
      reads this
    {
      var page := PageOf(fetched);
      var existing := Listed(old(categoryProducts), c);
      && AllDecidable(existing + NewOnly(IdsOf(existing), page), filterState)
      && requests == old(requests) + [CategoryPage(CategoryName(c), cur.currentPage + 1)]
      && productsCache == Cached(old(productsCache), page)
      && categoryProducts == old(categoryProducts)[c := existing + NewOnly(IdsOf(existing), page)]
      && paginationState == old(paginationState)[c := PaginationState(false, cur.currentPage + 1, |page| >= PageSize)]
      && uiState == UiState.Success(LoadedScreen(c, existing + NewOnly(IdsOf(existing), page)))
    }

    /** The coroutine `loadMoreProducts` launches for a tab whose state was
        `currentState`: mark the tab loading, then load its next page; when that
        throws (an index outside the tabs) only clear the loading flag. */
    method LaunchLoadMore(category: int, currentState: PaginationState, fetched: Result<seq<Product>>)
      requires Current(category) == currentState && !currentState.isLoading
      requires InRange(category) ==> AllDecidable(Listed(categoryProducts, category) + PageOf(fetched), filterState)
      modifies this`productsCache, this`categoryProducts, this`paginationState, this`uiState, this`requests
      ensures !InRange(category) ==>
                productsCache == old(productsCache) && categoryProducts == old(categoryProducts)
                && paginationState == old(paginationState)[category := currentState]
                && uiState == old(uiState) && requests == old(requests)
      ensures InRange(category) ==> LoadedMore(category, currentState, fetched)
    {
      paginationState := UpdatePagination(paginationState, category, (s: PaginationState) => s.(isLoading := true));
      if !InRange(category) {
        OverwriteTwice(old(paginationState), category, currentState.(isLoading := true), currentState);
        paginationState := UpdatePagination(paginationState, category, (s: PaginationState) => s.(isLoading := false));
      } else {
        OverwriteTwice(old(paginationState), category, currentState.(isLoading := true),
                       PaginationState(false, currentState.currentPage + 1, |PageOf(fetched)| >= PageSize));
        LoadNextPage(category, currentState, fetched);
      }
    }

    /** The coroutine `loadMoreProducts` launches, once the tab's state
        `currentState` is marked loading: fetch the next page, store it and
        show the tab. */
    method LoadNextPage(category: int, currentState: PaginationState, fetched: Result<seq<Product>>)
      requires InRange(category)
      requires AllDecidable(Listed(categoryProducts, category) + PageOf(fetched), filterState)
      modifies this`productsCache, this`categoryProducts, this`paginationState, this`uiState, this`requests
      ensures var page := PageOf(fetched);
              var existing := Listed(old(categoryProducts), category);
              && requests == old(requests) + [CategoryPage(CategoryName(category), currentState.currentPage + 1)]
              && productsCache == Cached(old(productsCache), page)
              && categoryProducts == old(categoryProducts)[category := existing + NewOnly(IdsOf(existing), page)]
              && paginationState == old(paginationState)[category :=
                   PaginationState(false, currentState.currentPage + 1, |page| >= PageSize)]
              && uiState == UiState.Success(LoadedScreen(category, existing + NewOnly(IdsOf(existing), page)))
    {
      var nextPage := currentState.currentPage + 1;
      var categoryName := if category == 0 then None else Some(Categories[category]);
      requests := requests + [CategoryPage(categoryName, nextPage)];
      var newProducts := PageOf(fetched);
      StoreNextPage(category, nextPage, newProducts);
      UpdateUiStateWithLoadedData(category);
    }

    /** The part of `loadMoreProducts` that stores a fetched page: cache it,
        append the products whose ids the tab does not list yet, and record the
        page as loaded, with more data expected only after a full page. */
    method StoreNextPage(category: int, nextPage: int, newProducts: seq<Product>)
      requires AllDecidable(Listed(categoryProducts, category) + newProducts, filterState)
      modifies this`productsCache, this`categoryProducts, this`paginationState
      ensures productsCache == Cached(old(productsCache), newProducts)
      ensures var existing := Listed(old(categoryProducts), category);
              categoryProducts == old(categoryProducts)[category := existing + NewOnly(IdsOf(existing), newProducts)]
      ensures paginationState == old(paginationState)[category :=
                old(Current(category)).(currentPage := nextPage, hasMoreData := |newProducts| >= PageSize,
                                        isLoading := false)]
      ensures AllDecidable(Listed(categoryProducts, category), filterState)
    {
      CacheProducts(newProducts);
      var existingIds := IdsOf(Listed(categoryProducts, category));
      var uniqueNewProducts := NewOnly(existingIds, newProducts);
      var existingProducts := Listed(categoryProducts, category);
      var mergedProducts := existingProducts + uniqueNewProducts;
      DecidableOnSublist(existingProducts + newProducts, mergedProducts, filterState);
      categoryProducts := categoryProducts[category := mergedProducts];
      paginationState := UpdatePagination(paginationState, category,
                                          (s: PaginationState) => s.(currentPage := nextPage,
                                                                     hasMoreData := |newProducts| >= PageSize,
                                                                     isLoading := false));
    }

    /** What `setSortOption` and `toggleFilterOption` re-sort may be filtered with
        `filters`: the shown search results when there are some, else the
        selected tab's products when the screen shows them. */
    predicate CanReapply(filters: set<FilterOption>)
      reads this`searchResults, this`uiState, this`categoryProducts, this`selectedCategoryIndex
    {
      if searchResults.Success? then AllDecidable(searchResults.data, filters)
      else uiState.Success? ==> AllDecidable(Listed(categoryProducts, selectedCategoryIndex), filters)
    }

    /** The update both `setSortOption` and `toggleFilterOption` end with: shown
        search results are sorted and filtered again as they are; otherwise a
        shown tab is rebuilt from its loaded products, keeping the shown best deals. */
    method ReapplySortAndFilter()
      requires CanReapply(filterState)
      modifies this`searchResults, this`uiState
      ensures old(searchResults).Success? ==>
                searchResults == UiState.Success(ApplySortAndFilter(old(searchResults).data, sortState, filterState))
                && uiState == old(uiState)
      ensures !old(searchResults).Success? && old(uiState).Success? ==>
                searchResults == old(searchResults)
                && uiState == UiState.Success(HomeScreenData(
                                ApplySortAndFilter(Listed(categoryProducts, selectedCategoryIndex), sortState, filterState),
                                old(uiState).data.bestDeals))
      ensures !old(searchResults).Success? && !old(uiState).Success? ==>
                searchResults == old(searchResults) && uiState == old(uiState)
    {
      if searchResults.Success? {
        var originalResults := searchResults.data;
        searchResults := UiState.Success(ApplySortAndFilter(originalResults, sortState, filterState));
      } else if uiState.Success? {
        var currentData := uiState.data;
        var originalProducts := Listed(categoryProducts, selectedCategoryIndex);
        uiState := UiState.Success(HomeScreenData(ApplySortAndFilter(originalProducts, sortState, filterState),
                                          currentData.bestDeals));
      }
    }

    /** `setSortOption(option)`. */
    method SetSortOption(option: Option<SortOption>)
      requires CanReapply(filterState)
      modifies this`sortState, this`searchResults, this`uiState
      ensures sortState == option
      ensures old(searchResults).Success? ==>
                searchResults == UiState.Success(ApplySortAndFilter(old(searchResults).data, option, filterState))
                && uiState == old(uiState)
      ensures !old(searchResults).Success? && old(uiState).Success? ==>
                searchResults == old(searchResults)
                && uiState == UiState.Success(HomeScreenData(
                                ApplySortAndFilter(Listed(categoryProducts, selectedCategoryIndex), option, filterState),
                                old(uiState).data.bestDeals))
      ensures !old(searchResults).Success? && !old(uiState).Success? ==>
                searchResults == old(searchResults) && uiState == old(uiState)
    {
      sortState := option;
      ReapplySortAndFilter();
    }

    /** `toggleFilterOption(option)`. */
    method ToggleFilterOption(option: FilterOption)
      requires CanReapply(Toggle(filterState, option))
      modifies this`filterState, this`searchResults, this`uiState
      ensures filterState == Toggle(old(filterState), option)
      ensures old(searchResults).Success? ==>
                searchResults == UiState.Success(ApplySortAndFilter(old(searchResults).data, sortState, filterState))
                && uiState == old(uiState)
      ensures !old(searchResults).Success? && old(uiState).Success? ==>
                searchResults == old(searchResults)
                && uiState == UiState.Success(HomeScreenData(
                                ApplySortAndFilter(Listed(categoryProducts, selectedCategoryIndex), sortState, filterState),
                                old(uiState).data.bestDeals))
      ensures !old(searchResults).Success? && !old(uiState).Success? ==>
                searchResults == old(searchResults) && uiState == old(uiState)
    {
      filterState := if option in filterState then filterState - {option} else filterState + {option};
      ReapplySortAndFilter();
    }

    /** `performSearch(query)`, with `results` what `repo.searchProducts(query)`
        returned: unless a load is running, cache the results and show them
        sorted and filtered, or "No results found" when there are none. */
    method PerformSearch(results: seq<Product>)
      requires !isLoading && |results| > 0 ==> AllDecidable(results, filterState)
      modifies this`searchResults, this`isLoading, this`productsCache
      ensures old(isLoading) ==>
                isLoading && searchResults == old(searchResults) && productsCache == old(productsCache)
      ensures !old(isLoading) ==> !isLoading && productsCache == Cached(old(productsCache), results)
      ensures !old(isLoading) && |results| == 0 ==> searchResults == Error(NoResults)
      ensures !old(isLoading) && |results| > 0 ==>
                searchResults == UiState.Success(ApplySortAndFilter(results, sortState, filterState))
    {
      if isLoading {
        return;
      }
      searchResults := Loading;
      isLoading := true;
      CacheProducts(results);
      searchResults := if |results| == 0 then Error(NoResults)
                       else UiState.Success(ApplySortAndFilter(results, sortState, filterState));
      isLoading := false;
    }
  }

  /** The home screen's first visit, as written: after `fetchDataIfNeeded` the
      initial load is marked done and only the best deals were asked for, yet
      the screen still shows loading and no tab has products. */
  method FirstVisitStaysLoading(fetchedDeals: Result<seq<Product>>) returns (vm: HomeViewModel)
    ensures vm.initialLoadDone && vm.requests == [BestDealsPage(1)]
    ensures vm.uiState == Loading && vm.categoryProducts == map[]
  {
    vm := new HomeViewModel("");
    vm.FetchDataIfNeeded(fetchedDeals);
  }

  /** The first visit with the loading flag released first: the home tab shows
      its first page, without repeated ids, beside the best deals. */
  method FirstVisitShowsHome(fetchedDeals: Result<seq<Product>>, fetchedHome: Result<seq<Product>>)
    returns (vm: HomeViewModel)
    ensures vm.initialLoadDone && vm.requests == [BestDealsPage(1), CategoryPage(None, 1)]
    ensures vm.uiState == UiState.Success(HomeScreenData(DistinctById(PageOf(fetchedHome)), PageOf(fetchedDeals)))
  {
    vm := new HomeViewModel("");
    vm.LoadInitialDataReleasingFlag(fetchedDeals, fetchedHome);
    NoSortNoFilterIsIdentity(DistinctById(PageOf(fetchedHome)));
  }
}
