/** The product search of search-service/server.js: `findProductsByName` over the fixed
    `mockProducts` table, and the `/api/search-products` handler that looks every named item of
    the request up and collects the lists under the item's name.
    A price is a whole number of hundredths of the table's `price.price` figure and a rating a
    whole number of tenths. */
module Catalogue {
  import opened Wrappers
  import opened Js
  import opened Assoc

  datatype Product = Product(id: string, name: string, price: nat, rating: nat, reviews: nat)

  /** The table, category by category, in the order its keys are written. */
  const MockProducts: Dict<seq<Product>> := MockTable()

  function MockTable(): (t: seq<(string, seq<Product>)>)
    ensures DistinctKeys(t)
  {
    var t := [("toothpaste", Toothpaste()), ("shampoo", Shampoo())];
    assert |t[0].0| != |t[1].0|;
    t
  }

  function Toothpaste(): seq<Product> {
    [Product("0", "Colgate Total Whitening Toothpaste", 114999, 45, 1234),
     Product("1", "Crest 3D White Brilliance Toothpaste", 89999, 46, 987),
     Product("2", "Sensodyne Pronamel Gentle Whitening Toothpaste", 99999, 47, 876),
     Product("3", "Oral-B Pro-Health Toothpaste", 79999, 44, 765)]
  }

  function Shampoo(): seq<Product> {
    [Product("0", "Pantene Pro-V Daily Moisture Renewal Shampoo", 59999, 43, 654),
     Product("1", "Head & Shoulders Classic Clean Shampoo", 49999, 42, 432),
     Product("2", "Dove Nutritive Solutions Daily Moisture Shampoo", 69999, 44, 543)]
  }

  /** The partial-match test between a category key and the lowercased term. */
  predicate PartialMatch(key: string, term: string) {
    Includes(key, term) || Includes(term, key)
  }

  /** Position of the first category, in key order, that matches `term` partially; `|cat|` when
      none does. */
  function FirstPartial(cat: seq<(string, seq<Product>)>, term: string): (i: nat)
    ensures i <= |cat|
    ensures i < |cat| ==> PartialMatch(cat[i].0, term)
    ensures forall j :: 0 <= j < i ==> !PartialMatch(cat[j].0, term)
  {
    if cat == [] then 0
    else if PartialMatch(cat[0].0, term) then 0
    else 1 + FirstPartial(cat[1..], term)
  }

  /** The product made up for a term nothing matches; `suffix` stands for the random base-36
      digits of its id. */
  function Generic(searchTerm: string, suffix: string): Product {
    Product("generic_" + suffix, searchTerm + " - Generic Product", 999, 40, 100)
  }

  /** What `findProductsByName` returns: the list under the lowercased term, else the list of the
      first category matching it partially, else the one generic product. */
  function Lookup(cat: Dict<seq<Product>>, searchTerm: string, suffix: string): seq<Product> {
    var term := Lower(searchTerm);
    match Get(cat, term)
    case Some(ps) => ps
    case None =>
      var i := FirstPartial(cat, term);
      if i < |cat| then cat[i].1 else [Generic(searchTerm, suffix)]
  }

  /** `findProductsByName(searchTerm)`: the exact lookup, then the loop over the categories that
      returns at the first partial match. */
  method FindProductsByName(searchTerm: string, suffix: string) returns (r: seq<Product>)
    ensures r == Lookup(MockProducts, searchTerm, suffix)
    ensures r != []
  {
    var term := Lower(searchTerm);
    var exact := Get(MockProducts, term);
    if exact.Some? {
      r := exact.value;
      assert r == MockProducts[0].1 || r == MockProducts[1].1;
      return;
    }
    var entries := MockProducts;
    var i := 0;
    while i < |entries|
      invariant 0 <= i <= |entries|
      invariant forall j :: 0 <= j < i ==> !PartialMatch(entries[j].0, term)
    {
      var (productName, products) := entries[i];
      if Includes(productName, term) || Includes(term, productName) {
        assert FirstPartial(entries, term) == i;
        return products;
      }
      i := i + 1;
    }
    assert FirstPartial(entries, term) == |entries|;
    r := [Generic(searchTerm, suffix)];
  }

  /** A term whose lowercase form is a key gets that key's list, whatever the other keys. */
  lemma ExactKeyWins(cat: Dict<seq<Product>>, searchTerm: string, suffix: string, i: nat)
    requires i < |cat| && Lower(searchTerm) == cat[i].0
    ensures Lookup(cat, searchTerm, suffix) == cat[i].1
  {
    GetAt(cat, i);
  }

  /** A term that is no key gets the list of the first category, in key order, matching it
      partially. */
  lemma FirstPartialWins(cat: Dict<seq<Product>>, searchTerm: string, suffix: string, i: nat)
    requires Lower(searchTerm) !in Keys(cat)
    requires i < |cat| && PartialMatch(cat[i].0, Lower(searchTerm))
    requires forall j :: 0 <= j < i ==> !PartialMatch(cat[j].0, Lower(searchTerm))
    ensures Lookup(cat, searchTerm, suffix) == cat[i].1
  {
    var f := FirstPartial(cat, Lower(searchTerm));
    assert !(f < i) && !(i < f);
  }

  /** A term matching no category gets exactly one product: the term as typed with
      " - Generic Product" after it, 9.99, rated 4.0 with 100 reviews. */
  lemma NoMatchIsGeneric(cat: Dict<seq<Product>>, searchTerm: string, suffix: string)
    requires forall i :: 0 <= i < |cat| ==> cat[i].0 != Lower(searchTerm) && !PartialMatch(cat[i].0, Lower(searchTerm))
    ensures Lookup(cat, searchTerm, suffix) == [Product("generic_" + suffix, searchTerm + " - Generic Product", 999, 40, 100)]
  {
    assert Lower(searchTerm) !in Keys(cat);
  }

  /** With no empty category the lookup never comes back empty. */
  lemma LookupNonEmpty(cat: Dict<seq<Product>>, searchTerm: string, suffix: string)
    requires forall i :: 0 <= i < |cat| ==> cat[i].1 != []
    ensures Lookup(cat, searchTerm, suffix) != []
  {
    var term := Lower(searchTerm);
    var g := Get(cat, term);
    if g.Some? {
      var i := IndexOf(cat, term);
      assert g.value == cat[i].1;
    }
  }

  /** The table holds no empty category, so a search always finds something. */
  lemma MockProductsNonEmpty(searchTerm: string, suffix: string)
    ensures Lookup(MockProducts, searchTerm, suffix) != []
  {
    LookupNonEmpty(MockProducts, searchTerm, suffix);
  }

  /** The table has the two categories, each with its products. */
  lemma MockShape()
    ensures |MockProducts| == 2
    ensures MockProducts[0] == ("toothpaste", Toothpaste()) && MockProducts[1] == ("shampoo", Shampoo())
    ensures Toothpaste() != [] && Shampoo() != []
  {
  }

  /** Upper case in the term does not matter: "ToothPaste" finds the toothpaste list. */
  lemma TermIsLowercased(suffix: string)
    ensures Lookup(MockProducts, "ToothPaste", suffix) == Toothpaste()
  {
    MockShape();
    assert Lower("ToothPaste") == "toothpaste";
    ExactKeyWins(MockProducts, "ToothPaste", suffix, 0);
  }

  /** An element of the request array: `null` or `undefined`, whose `name` cannot be read, or any
      other value with the value its `name` property holds (`undefined` for a primitive). */
  datatype SearchItem = Unreadable | Item(name: JsValue)

  /** The parsed request body: anything but an array, or an array. */
  datatype SearchBody = NotArray | Items(items: seq<SearchItem>)

  datatype SearchResponse =
    | BadRequest        // 400, "Products should be an array"
    | ServerError       // 500, an exception inside the loop
    | Found(results: Dict<seq<Product>>)

  /** The items the loop searches for: a string name that is not blank after `trim`. */
  predicate Searched(item: SearchItem) {
    item.Item? && item.name.Str? && Trim(item.name.s) != []
  }

  /** The items that make the loop throw: `null`/`undefined`, or a truthy name that is no string
      and so has no `trim`. */
  predicate Throws(item: SearchItem) {
    item.Unreadable? || (item.name.NonString? && item.name.truthy)
  }

  /** The results object after the loop has seen `items`, or `None` once an item throws;
      `suffix(i)` stands for the random digits drawn when item `i` gets a generic product. */
  function Results(cat: Dict<seq<Product>>, items: seq<SearchItem>, suffix: nat -> string): Option<Dict<seq<Product>>>
  {
    if items == [] then Some([])
    else
      match Results(cat, items[..|items| - 1], suffix)
      case None => None
      case Some(d) =>
        var item := items[|items| - 1];
        if Throws(item) then None
        else if Searched(item) then
          Some(Put(d, item.name.s, Lookup(cat, Trim(item.name.s), suffix(|items| - 1))))
        else Some(d)
  }

  function Search(body: SearchBody, suffix: nat -> string): SearchResponse {
    match body
    case NotArray => BadRequest
    case Items(items) =>
      match Results(MockProducts, items, suffix)
      case None => ServerError
      case Some(d) => Found(d)
  }

  /** The `/api/search-products` handler. */
  method SearchProducts(body: SearchBody, suffix: nat -> string) returns (resp: SearchResponse)
    ensures resp == Search(body, suffix)
  {
    if body.NotArray? {
      return BadRequest;
    }
    var products := body.items;
    var searchResults: Dict<seq<Product>> := [];
    var i := 0;
    while i < |products|
      invariant 0 <= i <= |products|
      invariant Results(MockProducts, products[..i], suffix) == Some(searchResults)
    {
      var product := products[i];
      if Throws(product) {
        ThrowIsFinal(MockProducts, products, i, suffix);
        return ServerError;
      }
      ResultsStep(MockProducts, products, i, suffix, searchResults);
      if product.name.Str? && product.name.s != [] && Trim(product.name.s) != [] {
        var found := FindProductsByName(Trim(product.name.s), suffix(i));
        searchResults := Put(searchResults, product.name.s, found);
      }
      i := i + 1;
    }
    assert products[..i] == products;
    resp := Found(searchResults);
  }

  /** One more item that does not throw: its search is recorded when its name is searched. */
  lemma ResultsStep(cat: Dict<seq<Product>>, items: seq<SearchItem>, i: nat, suffix: nat -> string, d: Dict<seq<Product>>)
    requires i < |items| && !Throws(items[i]) && Results(cat, items[..i], suffix) == Some(d)
    ensures Results(cat, items[..i + 1], suffix) ==
      Some(if Searched(items[i]) then Put(d, items[i].name.s, Lookup(cat, Trim(items[i].name.s), suffix(i))) else d)
  {
    assert items[..i + 1][..i] == items[..i];
  }

  /** Once an item throws, the whole loop has. */
  lemma {:induction false} ThrowIsFinal(cat: Dict<seq<Product>>, items: seq<SearchItem>, i: nat, suffix: nat -> string)
    requires i < |items| && Throws(items[i])
    ensures Results(cat, items, suffix) == None
    decreases |items|
  {
    if i < |items| - 1 {
      assert items[..|items| - 1][i] == items[i];
      ThrowIsFinal(cat, items[..|items| - 1], i, suffix);
    } else {
      assert items[|items| - 1] == items[i];
    }
  }

  /** A body that is not an array is answered 400 and nothing is searched. */
  lemma NotArrayRejected(suffix: nat -> string)
    ensures Search(NotArray, suffix) == BadRequest
  {
  }

  /** The keys of the results are exactly the untrimmed names of the searched items, and nothing
      skipped or blank adds one. */
  lemma {:induction false} ResultKeys(cat: Dict<seq<Product>>, items: seq<SearchItem>, suffix: nat -> string, k: string)
    requires Results(cat, items, suffix).Some?
    ensures k in Keys(Results(cat, items, suffix).value) <==> NamedIn(items, k)
  {
    if items != [] {
      var init := items[..|items| - 1];
      ResultKeys(cat, init, suffix, k);
      NamedInSnoc(init, items[|items| - 1], k);
      assert init + [items[|items| - 1]] == items;
    }
  }

  /** Some searched item of `items` is named `k`. */
  predicate NamedIn(items: seq<SearchItem>, k: string) {
    exists i :: 0 <= i < |items| && Searched(items[i]) && items[i].name.s == k
  }

  lemma NamedInSnoc(init: seq<SearchItem>, last: SearchItem, k: string)
    ensures NamedIn(init + [last], k) <==> NamedIn(init, k) || (Searched(last) && last.name.s == k)
  {
    var items := init + [last];
    if NamedIn(init, k) {
      var i :| 0 <= i < |init| && Searched(init[i]) && init[i].name.s == k;
      assert items[i] == init[i];
    }
    if Searched(last) && last.name.s == k {
      assert items[|init|] == last;
    }
    if NamedIn(items, k) {
      var i :| 0 <= i < |items| && Searched(items[i]) && items[i].name.s == k;
      if i < |init| {
        assert init[i] == items[i];
      }
    }
  }

  /** The value under a name is the search of the LAST item with that name: a later item
      overwrites what an earlier one with the same name stored. */
  lemma {:induction false} LastItemWins(cat: Dict<seq<Product>>, items: seq<SearchItem>, suffix: nat -> string, i: nat)
    requires Results(cat, items, suffix).Some?
    requires i < |items| && Searched(items[i])
    requires forall j :: i < j < |items| ==> !(Searched(items[j]) && items[j].name.s == items[i].name.s)
    ensures Get(Results(cat, items, suffix).value, items[i].name.s) ==
      Some(Lookup(cat, Trim(items[i].name.s), suffix(i)))
    decreases |items|
  {
    var init := items[..|items| - 1];
    var k := items[i].name.s;
    if i < |items| - 1 {
      assert init[i] == items[i];
      forall j | i < j < |init| ensures !(Searched(init[j]) && init[j].name.s == k) {
        assert init[j] == items[j];
      }
      LastItemWins(cat, init, suffix, i);
    }
  }
}
