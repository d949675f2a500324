/**
 * The session state of the storefront page and the handlers that change it:
 * switching between the landing and shop views, loading the catalog,
 * toggling a category filter, re-running the filter and toggling a product in
 * the persisted wishlist.
 */
module Storefront {
  import opened Wrappers
  import opened OrderedSet
  import opened Catalog

  /** The two top-level views of the page. */
  datatype View = Landing | Shop

  /** The decoded body of a successful fetch: a JSON array, or some other JSON value. */
  datatype Payload<T> = JsonArray(items: seq<T>) | NotArray

  /**
   * The outcome of one request to the catalog API: a body received with a
   * success status, or a failure (network error, non-success status or an
   * unreadable body), all of which the page handles alike.
   */
  datatype Response<T> = Received(payload: Payload<T>) | FetchFailed

  /** `Array.isArray(data) ? data : []`. */
  function ArrayOrEmpty<T>(p: Payload<T>): seq<T> {
    match p
    case JsonArray(items) => items
    case NotArray => []
  }

  /** The page's global session state and the handlers over it. */
  class CatalogController {
    /** The catalog as last loaded; empty until a load succeeds. */
    var allProducts: seq<Product>
    /** The category labels as last loaded. */
    var allCategories: seq<string>
    var currentView: View
    /** The categories the user has switched on, in the order they were switched on. */
    var selectedCategories: seq<string>
    /** The wishlist `Set`: distinct product ids in insertion order. */
    var wishlist: seq<ProductId>
    /** The array last written to (or read from) the `wishlist` storage key. */
    var storedWishlist: seq<ProductId>

    /**
     * The selection never holds a category twice, and the wishlist is exactly
     * the set that reading the stored array back (`new Set(stored)`) builds,
     * so it has no duplicates and the same ids as storage.
     */
    ghost predicate Valid()
      reads this
    {
      NoDuplicates(selectedCategories) && wishlist == Distinct(storedWishlist)
    }

    /** Whether a product's heart icon shows as wishlisted (`wishlist.has(id)`). */
    predicate IsWishlisted(id: ProductId)
      reads this
    {
      id in wishlist
    }

    /**
     * Page start-up: nothing loaded, no category selected, the landing view
     * shown, and the wishlist built from the array in storage (`stored`, or an
     * empty one when the key is absent), duplicates dropped.
     */
    constructor (stored: Option<seq<ProductId>>)
      ensures Valid()
      ensures allProducts == [] && allCategories == [] && selectedCategories == []
      ensures currentView == Landing
      ensures storedWishlist == stored.GetOr([])
      ensures wishlist == Distinct(stored.GetOr([]))
    {
      allProducts := [];
      allCategories := [];
      currentView := Landing;
      selectedCategories := [];
      storedWishlist := stored.GetOr([]);
      wishlist := Distinct(stored.GetOr([]));
    }

    /**
     * `switchView`: the name "landing" shows the landing view and any other
     * name the shop; entering the shop starts the catalog load exactly when no
     * product has been loaded yet. Nothing but the view changes here.
     */
    method SwitchView(viewName: string) returns (loadTriggered: bool)
      requires Valid()
      modifies this`currentView
      ensures Valid()
      ensures currentView == Landing <==> viewName == "landing"
      ensures currentView == Shop <==> viewName != "landing"
      ensures loadTriggered <==> currentView == Shop && allProducts == []
    {
      if viewName == "landing" {
        currentView := Landing;
        loadTriggered := false;
      } else {
        currentView := Shop;
        loadTriggered := |allProducts| == 0;
      }
    }

    /**
     * `fetchProducts`: a received body replaces the catalog (a body that is
     * not an array counts as an empty catalog); a failed request leaves the
     * catalog as it was and shows the error message.
     */
    method FetchProducts(response: Response<Product>) returns (products: seq<Product>, errorReported: bool)
      modifies this`allProducts
      ensures errorReported <==> response.FetchFailed?
      ensures response.Received? ==> allProducts == ArrayOrEmpty(response.payload) && products == allProducts
      ensures response.FetchFailed? ==> allProducts == old(allProducts) && products == []
    {
      match response
      case Received(payload) =>
        allProducts := ArrayOrEmpty(payload);
        products, errorReported := allProducts, false;
      case FetchFailed =>
        products, errorReported := [], true;
    }

    /**
     * `fetchCategories`: a received body replaces the category list (a body
     * that is not an array counts as none); a failed request empties it
     * without any message.
     */
    method FetchCategories(response: Response<string>) returns (categories: seq<string>)
      modifies this`allCategories
      ensures response.Received? ==> allCategories == ArrayOrEmpty(response.payload)
      ensures response.FetchFailed? ==> allCategories == []
      ensures categories == allCategories
    {
      if response.Received? {
        allCategories := ArrayOrEmpty(response.payload);
      } else {
        allCategories := [];
      }
      categories := allCategories;
    }

    /**
     * `initializeShop`: both requests complete, then the whole catalog is
     * displayed. After a failed product request the catalog is still empty, so
     * the grid ends on the "no results" placeholder, replacing the error
     * message the failed request had put there.
     */
    method InitializeShop(products: Response<Product>, categories: Response<string>)
      returns (grid: Grid, errorReported: bool)
      requires Valid()
      modifies this`allProducts, this`allCategories
      ensures Valid()
      ensures errorReported <==> products.FetchFailed?
      ensures products.Received? ==> allProducts == ArrayOrEmpty(products.payload)
      ensures products.FetchFailed? ==> allProducts == old(allProducts)
      ensures categories.Received? ==> allCategories == ArrayOrEmpty(categories.payload)
      ensures categories.FetchFailed? ==> allCategories == []
      ensures grid == Display(allProducts)
      ensures products.FetchFailed? && old(allProducts) == [] ==> grid == NoResults
    {
      var loaded;
      loaded, errorReported := FetchProducts(products);
      var labels := FetchCategories(categories);
      grid := Display(allProducts);
    }

    /**
     * `initializeShop` as evidently intended: the same two loads, but the grid
     * then shows the catalog narrowed by the current selection and search
     * text; `ReloadShowsOnlySelected` says every card shown then passes the
     * highlighted category tags.
     */
    method InitializeShopFiltered(products: Response<Product>, categories: Response<string>, searchValue: string)
      returns (grid: Grid, errorReported: bool)
      requires Valid()
      modifies this`allProducts, this`allCategories
      ensures Valid()
      ensures errorReported <==> products.FetchFailed?
      ensures products.Received? ==> allProducts == ArrayOrEmpty(products.payload)
      ensures products.FetchFailed? ==> allProducts == old(allProducts)
      ensures categories.Received? ==> allCategories == ArrayOrEmpty(categories.payload)
      ensures categories.FetchFailed? ==> allCategories == []
      ensures grid == Display(FilterProducts(allProducts, selectedCategories, searchValue))
    {
      var loaded;
      loaded, errorReported := FetchProducts(products);
      var labels := FetchCategories(categories);
      assert NoDuplicates(selectedCategories) && wishlist == Distinct(storedWishlist);
      grid := Refilter(searchValue);
    }

    /**
     * `filterProducts`, run by the search button, the debounced search box and
     * every category toggle: the grid shows the catalog narrowed by the
     * current selection and search text, and the catalog itself is left
     * untouched (the method modifies nothing).
     */
    method Refilter(searchValue: string) returns (grid: Grid)
      ensures grid == Display(FilterProducts(allProducts, selectedCategories, searchValue))
      ensures grid.Cards? ==> IsSubsequence(grid.products, allProducts)
    {
      var visible := BySearch(ByCategory(allProducts, selectedCategories), NormalizeTerm(searchValue));
      grid := Display(visible);
    }

    /**
     * `toggleCategory`: switch `category` off when it is selected (`splice` at
     * its index) or on otherwise (`push`), then re-run the filter on the new
     * selection. Only the toggled category changes membership, and the
     * selection stays free of duplicates.
     */
    method ToggleCategory(category: string, searchValue: string) returns (grid: Grid)
      requires Valid()
      modifies this`selectedCategories
      ensures Valid()
      ensures selectedCategories == Toggled(old(selectedCategories), category)
      ensures category in selectedCategories <==> category !in old(selectedCategories)
      ensures forall c :: c != category ==> (c in selectedCategories <==> c in old(selectedCategories))
      ensures grid == Display(FilterProducts(allProducts, selectedCategories, searchValue))
    {
      ghost var before := selectedCategories;
      ToggledFlips(before, category);
      var idx := IndexOf(selectedCategories, category);
      if idx > -1 {
        selectedCategories := selectedCategories[..idx] + selectedCategories[idx + 1..];
      } else {
        selectedCategories := selectedCategories + [category];
      }
      assert selectedCategories == Toggled(before, category);
      assert NoDuplicates(selectedCategories);
      assert wishlist == Distinct(storedWishlist);
      grid := Refilter(searchValue);
    }

    /**
     * `toggleWishlist`: remove the id from the wishlist when it is there,
     * add it otherwise, then write the whole set to storage. Returns whether
     * the product is now wishlisted; no other id changes membership.
     */
    method ToggleWishlist(productId: ProductId) returns (wishlisted: bool)
      requires Valid()
      modifies this`wishlist, this`storedWishlist
      ensures Valid()
      ensures wishlist == Toggled(old(wishlist), productId)
      ensures storedWishlist == wishlist
      ensures wishlisted <==> productId !in old(wishlist)
      ensures wishlisted == IsWishlisted(productId)
      ensures forall id :: id != productId ==> (IsWishlisted(id) <==> id in old(wishlist))
    {
      ToggledFlips(wishlist, productId);
      DistinctOfDistinct(Toggled(wishlist, productId));
      if productId in wishlist {
        var idx := IndexOf(wishlist, productId);
        wishlist := wishlist[..idx] + wishlist[idx + 1..];
      } else {
        wishlist := wishlist + [productId];
      }
      storedWishlist := wishlist;
      wishlisted := productId in wishlist;
    }
  }

  /**
   * `initializeShop` as written ignores the selection: a catalog of two
   * products in categories "a" and "b", reloaded while "a" is selected, is
   * shown whole, although the filter for that selection shows only the first.
   */
  lemma UnfilteredReloadShowsUnselected()
    ensures var all := [Product(1, "", "", "a"), Product(2, "", "", "b")];
      Display(all) != Display(FilterProducts(all, ["a"], "")) &&
      !InSelection(all[1], ["a"])
  {
    var all := [Product(1, "", "", "a"), Product(2, "", "", "b")];
    FilterProductsMembers(all, ["a"], "");
    assert !Passes(all[1], ["a"], NormalizeTerm(""));
  }

  /**
   * After the corrected reload, every card shown belongs to a selected
   * category (when any is selected) and matches the search text.
   */
  lemma ReloadShowsOnlySelected(allProducts: seq<Product>, selected: seq<string>, searchValue: string)
    ensures forall i :: 0 <= i < |FilterProducts(allProducts, selected, searchValue)| ==>
      Passes(FilterProducts(allProducts, selected, searchValue)[i], selected, NormalizeTerm(searchValue))
  {
    var shown := FilterProducts(allProducts, selected, searchValue);
    FilterProductsMembers(allProducts, selected, searchValue);
    forall i | 0 <= i < |shown| ensures Passes(shown[i], selected, NormalizeTerm(searchValue)) {
      assert shown[i] in shown;
    }
  }

  /**
   * A session: entering the shop with nothing loaded starts the load; a
   * failed load leaves the catalog empty and the grid on its placeholder, so
   * leaving and re-entering the shop starts the load again; once a non-empty
   * catalog is in, re-entering the shop loads nothing. Toggling a product
   * twice leaves the wishlist and the stored array as they were.
   */
  method SessionScenario(p: Product)
  {
    var page := new CatalogController(None);
    var load := page.SwitchView("shop");
    assert load;
    var grid, failed := page.InitializeShop(FetchFailed, Received(JsonArray(["electronics"])));
    assert failed && grid == NoResults && page.allProducts == [];
    load := page.SwitchView("landing");
    assert !load && page.currentView == Landing;
    load := page.SwitchView("shop");
    assert load;
    grid, failed := page.InitializeShop(Received(JsonArray([p])), FetchFailed);
    assert grid == Cards([p]) && page.allCategories == [];
    load := page.SwitchView("shop");
    assert !load;
    var on := page.ToggleWishlist(p.id);
    var off := page.ToggleWishlist(p.id);
    assert on && !off;
    ToggleAbsentTwice([], p.id);
    assert page.wishlist == [] && page.storedWishlist == [];
  }
}
