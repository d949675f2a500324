/**
 * The filter engine: which products of the loaded catalog the grid shows for
 * the selected categories and the search box's text.
 */
module Catalog {
  import opened Text

  type ProductId = int

  /**
   * The fields of a catalog record the filter and the wishlist read. A title
   * or description the record lacks is the empty string, which is what the
   * filter substitutes for it.
   */
  datatype Product = Product(id: ProductId, title: string, description: string, category: string)

  /** `s` is `t` with some elements left out, the rest in their original order. */
  predicate IsSubsequence<T(==)>(s: seq<T>, t: seq<T>)
    decreases |t|
  {
    if s == [] then true
    else if t == [] then false
    else (s[0] == t[0] && IsSubsequence(s[1..], t[1..])) || IsSubsequence(s, t[1..])
  }

  /**
   * `Array.prototype.filter`: the elements of `xs` that `keep` accepts, in
   * their original order.
   */
  function Filter<T>(xs: seq<T>, keep: T -> bool): (r: seq<T>)
    ensures |r| <= |xs|
    ensures IsSubsequence(r, xs)
  {
    if xs == [] then []
    else
      var rest := Filter(xs[1..], keep);
      if keep(xs[0]) then [xs[0]] + rest else rest
  }

  /** An element is kept exactly when it is in the input and passes the test. */
  lemma {:induction false} FilterMembers<T>(xs: seq<T>, keep: T -> bool, x: T)
    ensures x in Filter(xs, keep) <==> x in xs && keep(x)
  {
    if xs != [] {
      FilterMembers(xs[1..], keep, x);
      assert xs == [xs[0]] + xs[1..];
    }
  }

  /**
   * Every copy that passes is kept and every other one dropped: each value
   * occurs in the result as often as in the input when it passes, and not at
   * all otherwise. With `IsSubsequence` this fixes the result exactly.
   */
  lemma {:induction false} FilterCount<T>(xs: seq<T>, keep: T -> bool, x: T)
    ensures multiset(Filter(xs, keep))[x] == if keep(x) then multiset(xs)[x] else 0
  {
    if xs != [] {
      FilterCount(xs[1..], keep, x);
      assert xs == [xs[0]] + xs[1..];
    }
  }

  /** Filtering with a test every element passes returns the sequence itself. */
  lemma {:induction false} FilterAll<T>(xs: seq<T>, keep: T -> bool)
    requires forall i :: 0 <= i < |xs| ==> keep(xs[i])
    ensures Filter(xs, keep) == xs
  {
    if xs != [] {
      FilterAll(xs[1..], keep);
    }
  }

  /** Two filters in a row are one filter with the conjunction of their tests. */
  lemma {:induction false} FilterTwice<T>(xs: seq<T>, first: T -> bool, second: T -> bool, both: T -> bool)
    requires forall x :: both(x) == (first(x) && second(x))
    ensures Filter(Filter(xs, first), second) == Filter(xs, both)
  {
    if xs != [] {
      FilterTwice(xs[1..], first, second, both);
    }
  }

  /** The search box's value as the filter uses it: lower-cased, then trimmed. */
  function NormalizeTerm(searchValue: string): string {
    Trim(ToLower(searchValue))
  }

  /** A search box holding only whitespace puts no restriction on the text. */
  lemma {:induction false} NormalizeTermEmptyIff(searchValue: string)
    ensures NormalizeTerm(searchValue) == "" <==>
      forall i :: 0 <= i < |searchValue| ==> IsWhitespace(searchValue[i])
  {
    var lower := ToLower(searchValue);
    TrimEmptyIff(lower);
    forall i | 0 <= i < |searchValue|
      ensures IsWhitespace(lower[i]) == IsWhitespace(searchValue[i])
    {
      LowerCharKeepsWhitespace(searchValue[i]);
    }
  }

  /**
   * The search is case-insensitive: typing the term in upper or lower case
   * gives the same normalized term, and so the same grid.
   */
  lemma {:induction false} SearchCaseInsensitive(allProducts: seq<Product>, selected: seq<string>, searchValue: string)
    ensures NormalizeTerm(ToLower(searchValue)) == NormalizeTerm(searchValue)
    ensures FilterProducts(allProducts, selected, ToLower(searchValue)) == FilterProducts(allProducts, selected, searchValue)
  {
    ToLowerIdempotent(searchValue);
  }

  /** The category test: no category selected, or the product's category is one of them. */
  predicate InSelection(p: Product, selected: seq<string>) {
    |selected| == 0 || p.category in selected
  }

  /** The text test: no term, or the lower-cased title or description contains it. */
  predicate MatchesTerm(p: Product, term: string) {
    term == "" || Contains(ToLower(p.title), term) || Contains(ToLower(p.description), term)
  }

  /** Both tests of the filter, for an already normalized search term. */
  predicate Passes(p: Product, selected: seq<string>, term: string) {
    InSelection(p, selected) && MatchesTerm(p, term)
  }

  /** The combined test as a value to filter with. */
  function PassesTest(selected: seq<string>, term: string): Product -> bool {
    (p: Product) => Passes(p, selected, term)
  }

  /** The test of the category filter: the product's category is selected. */
  function CategoryTest(selected: seq<string>): Product -> bool {
    (p: Product) => p.category in selected
  }

  /** The test of the text filter: the lower-cased title or description contains the term. */
  function TermTest(term: string): Product -> bool {
    (p: Product) => Contains(ToLower(p.title), term) || Contains(ToLower(p.description), term)
  }

  /** The products kept by the category test alone, applied only when some category is selected. */
  function ByCategory(products: seq<Product>, selected: seq<string>): seq<Product> {
    if |selected| > 0 then Filter(products, CategoryTest(selected)) else products
  }

  /** The products kept by the text test alone, applied only when the term is not empty. */
  function BySearch(products: seq<Product>, term: string): seq<Product> {
    if term != "" then Filter(products, TermTest(term)) else products
  }

  /**
   * `filterProducts`: a copy of the catalog, narrowed first by the selected
   * categories and then by the normalized search term. The result keeps the
   * catalog's order (`FilterProductsMembers` says which products it holds).
   */
  function FilterProducts(allProducts: seq<Product>, selected: seq<string>, searchValue: string): (r: seq<Product>)
    ensures IsSubsequence(r, allProducts)
  {
    var term := NormalizeTerm(searchValue);
    OnePass(allProducts, selected, term);
    BySearch(ByCategory(allProducts, selected), term)
  }

  /**
   * A product is shown exactly when it is in the catalog and passes both
   * tests: its category is selected (or none is), and its lower-cased title
   * or description contains the normalized term (or the term is empty).
   */
  lemma FilterProductsMembers(allProducts: seq<Product>, selected: seq<string>, searchValue: string)
    ensures forall p :: p in FilterProducts(allProducts, selected, searchValue) <==>
      p in allProducts && Passes(p, selected, NormalizeTerm(searchValue))
  {
    var term := NormalizeTerm(searchValue);
    OnePass(allProducts, selected, term);
    forall p ensures p in FilterProducts(allProducts, selected, searchValue) <==>
      p in allProducts && Passes(p, selected, term)
    {
      FilterMembers(allProducts, PassesTest(selected, term), p);
    }
  }

  /**
   * Narrowing by category and then by text is one pass with the conjunction
   * of the two tests.
   */
  lemma FilterProductsOnePass(allProducts: seq<Product>, selected: seq<string>, searchValue: string)
    ensures FilterProducts(allProducts, selected, searchValue)
         == Filter(allProducts, PassesTest(selected, NormalizeTerm(searchValue)))
  {
    OnePass(allProducts, selected, NormalizeTerm(searchValue));
  }

  /** `FilterProductsOnePass` for a given normalized term. */
  lemma {:induction false} OnePass(allProducts: seq<Product>, selected: seq<string>, term: string)
    ensures BySearch(ByCategory(allProducts, selected), term) == Filter(allProducts, PassesTest(selected, term))
  {
    var both := PassesTest(selected, term);
    if |selected| > 0 && term != "" {
      FilterTwice(allProducts, CategoryTest(selected), TermTest(term), both);
    } else if |selected| > 0 {
      FilterTwice(allProducts, CategoryTest(selected), _ => true, both);
      FilterAll(Filter(allProducts, CategoryTest(selected)), _ => true);
    } else if term != "" {
      FilterTwice(allProducts, _ => true, TermTest(term), both);
      FilterAll(allProducts, _ => true);
    } else {
      FilterAll(allProducts, both);
    }
  }

  /** The order of the two tests does not matter: text first, then category, gives the same grid. */
  lemma FilterOrderIrrelevant(allProducts: seq<Product>, selected: seq<string>, searchValue: string)
    ensures ByCategory(BySearch(allProducts, NormalizeTerm(searchValue)), selected)
         == FilterProducts(allProducts, selected, searchValue)
  {
    var term := NormalizeTerm(searchValue);
    OnePass(allProducts, selected, term);
    SearchThenCategory(allProducts, selected, term);
  }

  /** Text test first, then the category test, is also one pass with both tests. */
  lemma {:induction false} SearchThenCategory(allProducts: seq<Product>, selected: seq<string>, term: string)
    ensures ByCategory(BySearch(allProducts, term), selected) == Filter(allProducts, PassesTest(selected, term))
  {
    var both := PassesTest(selected, term);
    if |selected| > 0 && term != "" {
      FilterTwice(allProducts, TermTest(term), CategoryTest(selected), both);
    } else if |selected| > 0 {
      FilterTwice(allProducts, _ => true, CategoryTest(selected), both);
      FilterAll(allProducts, _ => true);
    } else if term != "" {
      FilterTwice(allProducts, TermTest(term), _ => true, both);
      FilterAll(Filter(allProducts, TermTest(term)), _ => true);
    } else {
      FilterAll(allProducts, both);
    }
  }

  /** With no category selected and a blank search box the whole catalog is shown, in order. */
  lemma FilterProductsUnrestricted(allProducts: seq<Product>, searchValue: string)
    requires NormalizeTerm(searchValue) == ""
    ensures FilterProducts(allProducts, [], searchValue) == allProducts
  {
  }

  /**
   * With a blank search box the grid is exactly the catalog's products whose
   * category is selected, in catalog order.
   */
  lemma {:induction false} FilterProductsByCategoryOnly(allProducts: seq<Product>, selected: seq<string>, searchValue: string)
    requires |selected| > 0 && NormalizeTerm(searchValue) == ""
    ensures FilterProducts(allProducts, selected, searchValue) == Filter(allProducts, CategoryTest(selected))
    ensures forall p :: p in FilterProducts(allProducts, selected, searchValue) ==> p.category in selected
  {
    FilterProductsMembers(allProducts, selected, searchValue);
  }

  /** What the product grid shows. */
  datatype Grid = Cards(products: seq<Product>) | NoResults

  /** `displayProducts`: an empty list shows the "no results" placeholder, any other one its cards. */
  function Display(products: seq<Product>): (g: Grid)
    ensures g == NoResults <==> products == []
    ensures g != NoResults ==> g == Cards(products)
  {
    if |products| == 0 then NoResults else Cards(products)
  }
}
