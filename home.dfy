/** The product list page: loading the list, deleting from it, and the views
    derived from it (the category list, the searched, filtered and sorted
    view, and the total and average price). */
module HomePage {
  import opened JsValues
  import opened Text
  import opened Lists
  import opened Catalog

  /** The parsed body of `GET /api/products` as the page inspects it: a bare
      array, or an object whose `products` and `data` members may hold arrays. */
  datatype Body = ArrayBody(items: seq<Product>) | ObjectBody(products: Payload, data: Payload)

  /** The parts of a `fetch` response the page reads. A body that fails to
      parse makes the call throw, so it is a `Threw` outcome. */
  datatype Response = Response(ok: bool, body: Body)

  const FetchFailed := "Failed to fetch products"
  const DeleteFailed := "Failed to delete product"
  const DeleteAlertPrefix := "Error deleting product: "

  /** The product list inside a response body, tried in order: the body
      itself if it is an array, then `products`, then `data`, and `[]` if
      none of them is an array. */
  function Unwrap(b: Body): (r: seq<Product>)
    ensures b.ArrayBody? ==> r == b.items
    ensures b.ObjectBody? && b.products.Many? ==> r == b.products.records
    ensures b.ObjectBody? && !b.products.Many? && b.data.Many? ==> r == b.data.records
    ensures b.ObjectBody? && !b.products.Many? && !b.data.Many? ==> r == []
  {
    match b
    case ArrayBody(items) => items
    case ObjectBody(products, data) =>
      if products.Many? then products.records
      else if data.Many? then data.records
      else []
  }

  const All := "all"

  // ----- Categories -----

  /** The effective category of each product, index by index. */
  function EffectiveCategories(ps: seq<Product>): (cs: seq<string>)
    ensures |cs| == |ps|
    ensures forall i :: 0 <= i < |ps| ==> cs[i] == EffectiveCategory(ps[i])
    ensures "" !in cs
    ensures forall c :: c in cs ==> c == Uncategorized || exists p :: p in ps && p.category == Some(c)
  {
    seq(|ps|, i requires 0 <= i < |ps| => EffectiveCategory(ps[i]))
  }

  function NonEmpty(): string -> bool
  {
    (s: string) => s != ""
  }

  /** The category menu: 'all', then each non-empty effective category once. */
  function Categories(ps: seq<Product>): seq<string>
  {
    [All] + Distinct(Filter(EffectiveCategories(ps), NonEmpty()))
  }

  /** The category list starts with `'all'`; after it come the effective
      categories of the products, each once, in the order in which they first
      occur in the list. No effective category is empty, so `.filter(Boolean)`
      drops nothing. */
  lemma CategoriesSpec(ps: seq<Product>)
    ensures Categories(ps)[0] == All
    ensures Filter(EffectiveCategories(ps), NonEmpty()) == EffectiveCategories(ps)
    ensures forall c :: c in Categories(ps)[1..] <==> exists p :: p in ps && EffectiveCategory(p) == c
    ensures forall i, j :: 1 <= i < j < |Categories(ps)| ==> Categories(ps)[i] != Categories(ps)[j]
    ensures InFirstOccurrenceOrder(Categories(ps)[1..], EffectiveCategories(ps))
  {
    var cs := EffectiveCategories(ps);
    FilterAll(cs, NonEmpty());
    var d := Distinct(cs);
    assert Categories(ps)[1..] == d;
    DistinctMembership(cs);
    DistinctNoDuplicates(cs);
    DistinctFirstOccurrenceOrder(cs);
    forall c ensures c in d <==> exists p :: p in ps && EffectiveCategory(p) == c {
      if c in cs {
        var i :| 0 <= i < |cs| && cs[i] == c;
        assert ps[i] in ps && EffectiveCategory(ps[i]) == c;
      }
      if exists p :: p in ps && EffectiveCategory(p) == c {
        var p :| p in ps && EffectiveCategory(p) == c;
        var i :| 0 <= i < |ps| && ps[i] == p;
        assert cs[i] == c;
      }
    }
    forall i, j | 1 <= i < j < |Categories(ps)| ensures Categories(ps)[i] != Categories(ps)[j] {
      assert Categories(ps)[i] == d[i - 1] && Categories(ps)[j] == d[j - 1];
    }
  }

  // ----- Sorting -----

  /** The four named orders of the sort menu; any other key leaves the order alone. */
  datatype SortOrder = NameAsc | NameDesc | PriceAsc | PriceDesc | Unsorted

  /** The order a `sortBy` key selects: each of the four menu keys its own
      order, and every other key none. */
  function OrderOf(sortBy: string): (k: SortOrder)
    ensures k == NameAsc <==> sortBy == "name-asc"
    ensures k == NameDesc <==> sortBy == "name-desc"
    ensures k == PriceAsc <==> sortBy == "price-asc"
    ensures k == PriceDesc <==> sortBy == "price-desc"
  {
    if sortBy == "name-asc" then NameAsc
    else if sortBy == "name-desc" then NameDesc
    else if sortBy == "price-asc" then PriceAsc
    else if sortBy == "price-desc" then PriceDesc
    else Unsorted
  }

  function Sign(x: real): int
  {
    if x < 0.0 then -1 else if x > 0.0 then 1 else 0
  }

  /** The sign of the page's comparator for `a` before `b`. */
  function Compare(k: SortOrder, a: Product, b: Product): (r: int)
    ensures -1 <= r <= 1
    ensures r == 0 <==> k == Unsorted || ((k.NameAsc? || k.NameDesc?) && a.name == b.name) ||
                        ((k.PriceAsc? || k.PriceDesc?) && PriceValue(a) == PriceValue(b))
  {
    CompareStringsZeroIffEqual(a.name, b.name);
    CompareStringsZeroIffEqual(b.name, a.name);
    match k
    case NameAsc => CompareStrings(a.name, b.name)
    case NameDesc => CompareStrings(b.name, a.name)
    case PriceAsc => Sign(PriceValue(a) - PriceValue(b))
    case PriceDesc => Sign(PriceValue(b) - PriceValue(a))
    case Unsorted => 0
  }

  lemma CompareAntisymmetric(k: SortOrder, a: Product, b: Product)
    ensures Compare(k, a, b) == -Compare(k, b, a)
  {
    match k
    case NameAsc => CompareStringsAntisymmetric(a.name, b.name);
    case NameDesc => CompareStringsAntisymmetric(a.name, b.name);
    case _ =>
  }

  lemma CompareTransitive(k: SortOrder, a: Product, b: Product, c: Product)
    requires Compare(k, a, b) <= 0 && Compare(k, b, c) <= 0
    ensures Compare(k, a, c) <= 0
  {
    match k
    case NameAsc => CompareStringsTransitive(a.name, b.name, c.name);
    case NameDesc => CompareStringsTransitive(c.name, b.name, a.name);
    case _ =>
  }

  /** `xs` is ordered by `k`: no element compares after a later one. */
  predicate Sorted(k: SortOrder, xs: seq<Product>)
  {
    forall i, j :: 0 <= i < j < |xs| ==> Compare(k, xs[i], xs[j]) <= 0
  }

  /** Inserts `x` before the first element it does not compare after. */
  function Insert(k: SortOrder, x: Product, ys: seq<Product>): (r: seq<Product>)
    ensures multiset(r) == multiset(ys) + multiset{x}
  {
    if ys == [] then [x]
    else if Compare(k, x, ys[0]) <= 0 then [x] + ys
    else
      assert ys == [ys[0]] + ys[1..];
      [ys[0]] + Insert(k, x, ys[1..])
  }

  /** `xs.sort(comparator)`, as a stable insertion sort. */
  function Sort(k: SortOrder, xs: seq<Product>): (r: seq<Product>)
    ensures multiset(r) == multiset(xs)
  {
    if xs == [] then []
    else
      assert xs == [xs[0]] + xs[1..];
      Insert(k, xs[0], Sort(k, xs[1..]))
  }

  lemma {:induction false} InsertSorted(k: SortOrder, x: Product, ys: seq<Product>)
    requires Sorted(k, ys)
    ensures Sorted(k, Insert(k, x, ys))
  {
    if ys != [] {
      var r := Insert(k, x, ys);
      if Compare(k, x, ys[0]) <= 0 {
        forall j | 1 <= j < |r| ensures Compare(k, r[0], r[j]) <= 0 {
          if j > 1 { CompareTransitive(k, x, ys[0], ys[j - 1]); }
        }
      } else {
        var tail := ys[1..];
        InsertSorted(k, x, tail);
        var rest := Insert(k, x, tail);
        assert r == [ys[0]] + rest;
        CompareAntisymmetric(k, x, ys[0]);
        InsertKeepsLowerBound(k, ys[0], x, tail);
      }
    }
  }

  /** An element that compares before `x` and before every element of `ys`
      compares before every element of `Insert(k, x, ys)`. */
  lemma InsertKeepsLowerBound(k: SortOrder, y: Product, x: Product, ys: seq<Product>)
    requires Compare(k, y, x) <= 0
    requires forall j :: 0 <= j < |ys| ==> Compare(k, y, ys[j]) <= 0
    ensures forall j :: 0 <= j < |Insert(k, x, ys)| ==> Compare(k, y, Insert(k, x, ys)[j]) <= 0
  {
    var rest := Insert(k, x, ys);
    forall j | 0 <= j < |rest| ensures Compare(k, y, rest[j]) <= 0 {
      assert rest[j] in multiset(rest);
      if rest[j] != x {
        assert rest[j] in multiset(ys);
        var m :| 0 <= m < |ys| && ys[m] == rest[j];
      }
    }
  }

  /** Sorting orders the list by the comparator and is a permutation of it. */
  lemma {:induction false} SortSorted(k: SortOrder, xs: seq<Product>)
    ensures Sorted(k, Sort(k, xs))
    ensures multiset(Sort(k, xs)) == multiset(xs)
  {
    if xs != [] {
      SortSorted(k, xs[1..]);
      InsertSorted(k, xs[0], Sort(k, xs[1..]));
    }
  }

  /** With a sort key the page does not know, the comparator always returns 0
      and the list keeps its order. */
  lemma {:induction false} SortUnsortedKeepsOrder(xs: seq<Product>)
    ensures Sort(Unsorted, xs) == xs
  {
    if xs != [] {
      SortUnsortedKeepsOrder(xs[1..]);
      assert xs == [xs[0]] + xs[1..];
    }
  }

  // ----- Search and filter -----

  /** The filter of the page: the lower-cased name contains the lower-cased
      query, and the selected category is `'all'` or the product's effective
      category. */
  predicate Matches(p: Product, query: string, category: string)
  {
    Contains(Lower(p.name), Lower(query)) && (category == All || EffectiveCategory(p) == category)
  }

  function MatchesFilter(query: string, category: string): Product -> bool
  {
    (p: Product) => Matches(p, query, category)
  }

  /** The products the list shows: those matching the query and the category, sorted by the key. */
  function FilteredProducts(ps: seq<Product>, query: string, category: string, sortBy: string): (r: seq<Product>)
    ensures |r| <= |ps|
    ensures forall p :: p in r ==> p in ps
  {
    var f := Filter(ps, MatchesFilter(query, category));
    var r := Sort(OrderOf(sortBy), f);
    FilterMembership(ps, MatchesFilter(query, category));
    assert |r| == |multiset(r)| == |multiset(f)| == |f|;
    assert forall p :: p in r ==> p in multiset(f);
    r
  }

  /** A product is in the view exactly when it is in the list, its
      lower-cased name has the lower-cased query at some position, and the
      category matches; each such product appears as often as in the list. */
  lemma FilteredMembership(ps: seq<Product>, query: string, category: string, sortBy: string)
    ensures forall p :: p in FilteredProducts(ps, query, category, sortBy) <==>
              p in ps && (exists i :: OccursAt(Lower(p.name), Lower(query), i)) &&
              (category == All || EffectiveCategory(p) == category)
    ensures forall p :: multiset(FilteredProducts(ps, query, category, sortBy))[p] ==
              if Matches(p, query, category) then multiset(ps)[p] else 0
    ensures |FilteredProducts(ps, query, category, sortBy)| <= |ps|
  {
    var f := Filter(ps, MatchesFilter(query, category));
    FilterMembership(ps, MatchesFilter(query, category));
    FilterCount(ps, MatchesFilter(query, category));
    FilterSubsequence(ps, MatchesFilter(query, category));
    SubsequenceLength(f, ps);
    assert multiset(FilteredProducts(ps, query, category, sortBy)) == multiset(f);
    forall p ensures p in FilteredProducts(ps, query, category, sortBy) <==> p in f {
      assert p in multiset(FilteredProducts(ps, query, category, sortBy)) <==> p in multiset(f);
    }
    forall p ensures Matches(p, query, category) <==>
      (exists i :: OccursAt(Lower(p.name), Lower(query), i)) && (category == All || EffectiveCategory(p) == category)
    {
      ContainsIff(Lower(p.name), Lower(query));
    }
    assert |multiset(FilteredProducts(ps, query, category, sortBy))| == |multiset(f)|;
  }

  /** With an empty query and `'all'` selected, the view is a permutation of the list. */
  lemma UnfilteredIsPermutation(ps: seq<Product>, sortBy: string)
    ensures multiset(FilteredProducts(ps, "", All, sortBy)) == multiset(ps)
  {
    forall p | p in ps ensures MatchesFilter("", All)(p) {
      assert Lower("") == "";
      assert Lower("") <= Lower(p.name);
    }
    FilterAll(ps, MatchesFilter("", All));
  }

  /** The view is ordered by the selected sort key; under an unknown key it
      keeps the order of the list. */
  lemma FilteredOrder(ps: seq<Product>, query: string, category: string, sortBy: string)
    ensures Sorted(OrderOf(sortBy), FilteredProducts(ps, query, category, sortBy))
    ensures OrderOf(sortBy) == Unsorted ==> IsSubsequence(FilteredProducts(ps, query, category, sortBy), ps)
  {
    var f := Filter(ps, MatchesFilter(query, category));
    SortSorted(OrderOf(sortBy), f);
    if OrderOf(sortBy) == Unsorted {
      SortUnsortedKeepsOrder(f);
      FilterSubsequence(ps, MatchesFilter(query, category));
    }
  }

  /** What each named key orders the view by: names ascending or descending
      in the name order, `Number(price) || 0` ascending or descending. */
  lemma SortKeysOrderView(ps: seq<Product>, query: string, category: string)
    ensures var v := FilteredProducts(ps, query, category, "name-asc");
            forall i, j :: 0 <= i < j < |v| ==> CompareStrings(v[i].name, v[j].name) <= 0
    ensures var v := FilteredProducts(ps, query, category, "name-desc");
            forall i, j :: 0 <= i < j < |v| ==> CompareStrings(v[j].name, v[i].name) <= 0
    ensures var v := FilteredProducts(ps, query, category, "price-asc");
            forall i, j :: 0 <= i < j < |v| ==> PriceValue(v[i]) <= PriceValue(v[j])
    ensures var v := FilteredProducts(ps, query, category, "price-desc");
            forall i, j :: 0 <= i < j < |v| ==> PriceValue(v[j]) <= PriceValue(v[i])
  {
    FilteredOrder(ps, query, category, "name-asc");
    FilteredOrder(ps, query, category, "name-desc");
    FilteredOrder(ps, query, category, "price-asc");
    FilteredOrder(ps, query, category, "price-desc");
  }

  // ----- Totals -----

  /** The sum of the product prices, a missing or non-numeric price counting as 0. */
  function TotalValue(ps: seq<Product>): real
  {
    if ps == [] then 0.0 else TotalValue(ps[..|ps| - 1]) + PriceValue(ps[|ps| - 1])
  }

  /** The mean price, and 0 for an empty list. */
  function AvgPrice(ps: seq<Product>): (r: real)
    ensures |ps| == 0 ==> r == 0.0
    ensures |ps| > 0 ==> r * |ps| as real == TotalValue(ps)
  {
    if |ps| > 0 then TotalValue(ps) / |ps| as real else 0.0
  }

  /** The total of a concatenation is the sum of the totals. */
  lemma {:induction false} TotalValueAppend(a: seq<Product>, b: seq<Product>)
    ensures TotalValue(a + b) == TotalValue(a) + TotalValue(b)
  {
    if b == [] {
      assert a + b == a;
    } else {
      var init := b[..|b| - 1];
      assert (a + b)[..|a + b| - 1] == a + init;
      TotalValueAppend(a, init);
    }
  }

  /** When every price lies between `lo` and `hi`, the total lies between
      `n * lo` and `n * hi`. */
  lemma {:induction false} TotalValueBounds(ps: seq<Product>, lo: real, hi: real)
    requires forall i :: 0 <= i < |ps| ==> lo <= PriceValue(ps[i]) <= hi
    ensures |ps| as real * lo <= TotalValue(ps) <= |ps| as real * hi
  {
    if ps != [] {
      var init := ps[..|ps| - 1];
      assert forall i :: 0 <= i < |init| ==> init[i] == ps[i];
      TotalValueBounds(init, lo, hi);
      var last := ps[|ps| - 1];
      BoundsStep(TotalValue(init), PriceValue(last), |ps|, lo, hi);
    }
  }

  /** One step of `TotalValueBounds`: adding a price within the bounds to a
      total of `n - 1` such prices. */
  lemma BoundsStep(t: real, x: real, n: nat, lo: real, hi: real)
    requires n > 0
    requires (n - 1) as real * lo <= t <= (n - 1) as real * hi && lo <= x <= hi
    ensures n as real * lo <= t + x <= n as real * hi
  {
    var m := (n - 1) as real;
    assert n as real == m + 1.0;
    assert (m + 1.0) * lo == m * lo + lo && (m + 1.0) * hi == m * hi + hi;
  }

  /** When every price lies between `lo` and `hi`, so does the average. */
  lemma AvgPriceBounds(ps: seq<Product>, lo: real, hi: real)
    requires |ps| > 0
    requires forall p :: p in ps ==> lo <= PriceValue(p) <= hi
    ensures lo <= AvgPrice(ps) <= hi
  {
    forall i | 0 <= i < |ps|
      ensures lo <= PriceValue(ps[i]) <= hi
    {
      assert ps[i] in ps;
    }
    TotalValueBounds(ps, lo, hi);
    AverageStep(TotalValue(ps), AvgPrice(ps), |ps| as real, lo, hi);
  }

  /** A quotient `a = t / n` of a total between `n * lo` and `n * hi` lies
      between `lo` and `hi`. */
  lemma AverageStep(t: real, a: real, n: real, lo: real, hi: real)
    requires n > 0.0 && a * n == t
    requires n * lo <= t <= n * hi
    ensures lo <= a <= hi
  {
    assert (a - lo) * n == t - lo * n && (hi - a) * n == hi * n - t;
  }

  // ----- The page's state -----

  class Home {
    var products: seq<Product>
    var loading: bool
    var error: Option<string>
    var searchQuery: string
    var selectedCategory: string
    var sortBy: string

    constructor()
      ensures products == [] && loading && error == None
      ensures searchQuery == "" && selectedCategory == All && sortBy == "name-asc"
    {
      products, loading, error := [], true, None;
      searchQuery, selectedCategory, sortBy := "", All, "name-asc";
    }

    /** The `filteredProducts` the page renders from its current state: the
        products that match the query and the category, in the selected order. */
    function Visible(): (r: seq<Product>)
      reads this
      ensures |r| <= |products|
      ensures forall p :: p in r <==> p in products && Matches(p, searchQuery, selectedCategory)
      ensures Sorted(OrderOf(sortBy), r)
    {
      FilteredMembership(products, searchQuery, selectedCategory, sortBy);
      FilteredOrder(products, searchQuery, selectedCategory, sortBy);
      FilteredProducts(products, searchQuery, selectedCategory, sortBy)
    }

    /** The `categories` of the category menu for the current products. */
    function CategoryMenu(): (cs: seq<string>)
      reads this
      ensures |cs| >= 1 && cs[0] == All
      ensures forall c :: c in cs[1..] <==> exists p :: p in products && EffectiveCategory(p) == c
    {
      CategoriesSpec(products);
      Categories(products)
    }

    /** The part of `fetchProducts` before the request is awaited. */
    method BeginFetch()
      modifies this`loading
      ensures loading
    {
      loading := true;
    }

    /** The part of `fetchProducts` after the request settles, through its
        `try`/`catch`/`finally`. */
    method SettleFetch(outcome: Call<Response>)
      modifies this`products, this`error, this`loading
      ensures !loading
      ensures outcome.Threw? ==> error == Some(outcome.message) && products == []
      ensures outcome.Returned? && !outcome.value.ok ==> error == Some(FetchFailed) && products == []
      ensures outcome.Returned? && outcome.value.ok ==> error == None && products == Unwrap(outcome.value.body)
    {
      match outcome {
        case Threw(message) =>
          error := Some(message);
          products := [];
        case Returned(response) =>
          if !response.ok {
            error := Some(FetchFailed);
            products := [];
          } else {
            products := Unwrap(response.body);
            error := None;
          }
      }
      loading := false;
    }

    /** `fetchProducts()`: loading while the request is out, then the new
        list or the error. */
    method FetchProducts(outcome: Call<Response>)
      modifies this`products, this`error, this`loading
      ensures !loading
      ensures outcome.Threw? ==> error == Some(outcome.message) && products == []
      ensures outcome.Returned? && !outcome.value.ok ==> error == Some(FetchFailed) && products == []
      ensures outcome.Returned? && outcome.value.ok ==> error == None && products == Unwrap(outcome.value.body)
    {
      BeginFetch();
      assert loading;
      SettleFetch(outcome);
    }

    /** `handleDelete(id, name)`: `confirmed` is the answer to the dialog and
        `outcome` the request's `response.ok` (or the message of what it
        threw). A failure yields the alert text and keeps the list. */
    method HandleDelete(id: string, confirmed: bool, outcome: Call<bool>) returns (requested: bool, alert: Option<string>)
      modifies this`products
      ensures requested == confirmed
      ensures products == if confirmed && outcome.Returned? && outcome.value then WithoutId(old(products), id) else old(products)
      ensures !confirmed ==> alert.None?
      ensures confirmed && outcome.Threw? ==> alert == Some(DeleteAlertPrefix + outcome.message)
      ensures confirmed && outcome.Returned? && !outcome.value ==> alert == Some(DeleteAlertPrefix + DeleteFailed)
      ensures outcome.Returned? && outcome.value ==> alert.None?
    {
      if !confirmed {
        return false, None;
      }
      requested := true;
      match outcome {
        case Threw(message) =>
          alert := Some(DeleteAlertPrefix + message);
        case Returned(ok) =>
          if !ok {
            alert := Some(DeleteAlertPrefix + DeleteFailed);
          } else {
            products := WithoutId(products, id);
            alert := None;
          }
      }
    }
  }
}
