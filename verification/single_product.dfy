/** The single-product page: it resolves the product named by the route id,
    keeps a selected thumbnail and a list of related products in local state,
    and renders the related list filtered to in-stock items. The two effects of
    the page are step functions the caller runs when their inputs change. */
module SingleProduct {
  import opened Wrappers
  import opened Sequences

  datatype Product = Product(
    id: string,
    name: string,
    category: string,
    price: real,
    offerPrice: real,
    images: seq<string>,
    description: seq<string>,
    inStock: bool)

  /** How many related products the page keeps. */
  const RelatedLimit: nat := 5

  /** The page's local state: the selected thumbnail and the related products. */
  datatype PageState = PageState(thumbnail: Option<string>, related: seq<Product>)

  const InitialPage: PageState := PageState(None, [])

  /** The related-products area: either a grid of cards followed by a "See More"
      button, or the "No related products found." message. */
  datatype RelatedSection = RelatedGrid(cards: seq<Product>) | NoRelated

  datatype PageView = PageView(product: Product, mainImage: Option<string>, related: RelatedSection)

  /** Position of the first product whose id is `id`. */
  function FindIndex(catalog: seq<Product>, id: string): (r: Option<nat>)
    ensures r.None? ==> forall i :: 0 <= i < |catalog| ==> catalog[i].id != id
    ensures r.Some? ==> r.value < |catalog| && catalog[r.value].id == id
    ensures r.Some? ==> forall j :: 0 <= j < r.value ==> catalog[j].id != id
  {
    if |catalog| == 0 then None
    else if catalog[0].id == id then Some(0)
    else match FindIndex(catalog[1..], id)
      case None => None
      case Some(k) => Some(k + 1)
  }

  /** `products.find(p => p._id === id)`: the first product with that id, if any. */
  function Find(catalog: seq<Product>, id: string): (r: Option<Product>)
    ensures r.None? <==> forall i :: 0 <= i < |catalog| ==> catalog[i].id != id
    ensures r.Some? ==> exists k :: 0 <= k < |catalog| && catalog[k] == r.value && r.value.id == id
                                    && forall j :: 0 <= j < k ==> catalog[j].id != id
  {
    match FindIndex(catalog, id)
    case None => None
    case Some(k) => Some(catalog[k])
  }

  /** A catalog item is related to the viewed product when it is another product of the same category. */
  predicate IsRelatedTo(viewed: Product, item: Product) {
    item.category == viewed.category && item.id != viewed.id
  }

  /** `IsRelatedTo` as the filter callback. */
  function RelatedTest(viewed: Product): Product -> bool {
    item => IsRelatedTo(viewed, item)
  }

  /** The related list: matching catalog items, in catalog order, at most `RelatedLimit` of them.
      The last ensures says they are the FIRST matches: all the matches in some prefix
      of the catalog, which is the whole catalog unless the limit was reached. */
  function RelatedOf(catalog: seq<Product>, viewed: Product): (r: seq<Product>)
    ensures |r| <= RelatedLimit
    ensures forall i :: 0 <= i < |r| ==> IsRelatedTo(viewed, r[i])
    ensures IsSubsequence(r, catalog)
    ensures |r| < RelatedLimit ==> forall i :: 0 <= i < |catalog| && IsRelatedTo(viewed, catalog[i]) ==> catalog[i] in r
    ensures exists p :: 0 <= p <= |catalog| && r == Filter(catalog[..p], RelatedTest(viewed))
                        && (p == |catalog| || |r| == RelatedLimit)
  {
    var matching := Filter(catalog, RelatedTest(viewed));
    var r := Take(matching, RelatedLimit);
    FilterIsSubsequence(catalog, RelatedTest(viewed));
    PrefixIsSubsequence(matching, |r|);
    SubsequenceTransitive(r, matching, catalog);
    assert forall i :: 0 <= i < |r| ==> r[i] == matching[i];
    FilterPrefixReached(catalog, RelatedTest(viewed), |r|);
    assert catalog[..|catalog|] == catalog;
    r
  }

  /** The effect on `[products, product]`: it recomputes the related list only
      once the catalog is non-empty and the product resolved, and otherwise keeps it. */
  function RelatedEffect(s: PageState, catalog: seq<Product>, product: Option<Product>): (r: PageState)
    ensures r.thumbnail == s.thumbnail
    ensures |catalog| == 0 || product.None? ==> r.related == s.related
    ensures |catalog| > 0 && product.Some? ==> r.related == RelatedOf(catalog, product.value)
  {
    if |catalog| > 0 && product.Some? then s.(related := RelatedOf(catalog, product.value)) else s
  }

  /** The thumbnail the page starts from: the product's first image when that is
      a non-empty name (a truthy value), and none otherwise. */
  function DefaultThumbnail(product: Option<Product>): (r: Option<string>)
    ensures r.Some? <==> product.Some? && |product.value.images| > 0 && product.value.images[0] != ""
    ensures r.Some? ==> r.value == product.value.images[0]
  {
    if product.Some? && |product.value.images| > 0 && product.value.images[0] != ""
    then Some(product.value.images[0])
    else None
  }

  /** The effect on `[product]`: it resets the selected thumbnail. */
  function ThumbnailEffect(s: PageState, product: Option<Product>): (r: PageState)
    ensures r.related == s.related
    ensures r.thumbnail.Some? ==> product.Some? && r.thumbnail.value in product.value.images
    ensures r.thumbnail.None? <==> product.None? || |product.value.images| == 0 || product.value.images[0] == ""
    ensures product.Some? && |product.value.images| > 0 && product.value.images[0] != ""
            ==> r.thumbnail == Some(product.value.images[0])
  {
    s.(thumbnail := DefaultThumbnail(product))
  }

  /** Both effects, in the order the page declares them, for the product the route names. */
  function Sync(s: PageState, catalog: seq<Product>, id: string): (r: PageState)
    ensures r.thumbnail == DefaultThumbnail(Find(catalog, id))
    ensures Find(catalog, id).Some? ==> r.related == RelatedOf(catalog, Find(catalog, id).value)
    ensures Find(catalog, id).None? ==> r.related == s.related
  {
    var product := Find(catalog, id);
    ThumbnailEffect(RelatedEffect(s, catalog, product), product)
  }

  /** A click on the `k`-th thumbnail of the product on show selects that image. */
  function ClickThumbnail(s: PageState, product: Product, k: nat): (r: PageState)
    requires k < |product.images|
    ensures r.thumbnail == Some(product.images[k])
    ensures r.related == s.related
  {
    s.(thumbnail := Some(product.images[k]))
  }

  /** The related-products area for a related list: the grid shows only in-stock
      items, while the choice between grid and message looks at the whole list. */
  function Section(related: seq<Product>): (r: RelatedSection)
    ensures r.RelatedGrid? <==> |related| > 0
    ensures r.RelatedGrid? ==> IsSubsequence(r.cards, related) && |r.cards| <= |related|
    ensures r.RelatedGrid? ==> forall i :: 0 <= i < |r.cards| ==> r.cards[i].inStock
    ensures r.RelatedGrid? ==> forall i :: 0 <= i < |related| && related[i].inStock ==> related[i] in r.cards
    ensures r.RelatedGrid? ==> forall x :: multiset(r.cards)[x] == if x.inStock then multiset(related)[x] else 0
  {
    if |related| > 0 then
      FilterIsSubsequence(related, (p: Product) => p.inStock);
      FilterKeepsCounts(related, (p: Product) => p.inStock);
      RelatedGrid(Filter(related, (p: Product) => p.inStock))
    else
      NoRelated
  }

  /** Whether the "See More" button is rendered. */
  predicate ShowsSeeMore(v: PageView) {
    v.related.RelatedGrid?
  }

  /** The page for the route id: nothing when no product has that id. */
  function Render(catalog: seq<Product>, id: string, s: PageState): (r: Option<PageView>)
    ensures r.None? <==> forall i :: 0 <= i < |catalog| ==> catalog[i].id != id
    ensures r.Some? ==> r.value.product.id == id && r.value.product in catalog
    ensures r.Some? ==> forall j :: 0 <= j < |catalog| && catalog[j].id == id ==>
                          exists k :: 0 <= k <= j && catalog[k] == r.value.product
    ensures r.Some? ==> r.value.mainImage == s.thumbnail
    ensures r.Some? ==> (ShowsSeeMore(r.value) <==> |s.related| > 0)
  {
    match Find(catalog, id)
    case None => None
    case Some(p) => Some(PageView(p, s.thumbnail, Section(s.related)))
  }

  /** Once the effects have run, a rendered page shows the related list of the
      product on show: cards of its category, other than itself, in stock, in
      catalog order, at most five, and the first image as the main image. */
  lemma SyncedPage(s: PageState, catalog: seq<Product>, id: string)
    requires Render(catalog, id, Sync(s, catalog, id)).Some?
    ensures var v := Render(catalog, id, Sync(s, catalog, id)).value;
            && v.mainImage == DefaultThumbnail(Some(v.product))
            && Sync(s, catalog, id).related == RelatedOf(catalog, v.product)
            && (v.related.RelatedGrid? ==>
                && |v.related.cards| <= RelatedLimit
                && IsSubsequence(v.related.cards, catalog)
                && forall i :: 0 <= i < |v.related.cards| ==>
                     IsRelatedTo(v.product, v.related.cards[i]) && v.related.cards[i].inStock)
  {
    var t := Sync(s, catalog, id);
    var v := Render(catalog, id, t).value;
    assert |catalog| > 0;
    var related := RelatedOf(catalog, v.product);
    if v.related.RelatedGrid? {
      SubsequenceTransitive(v.related.cards, related, catalog);
      SubsequenceLength(v.related.cards, related);
      SubsequenceMembers(v.related.cards, related);
    }
  }

  /** Until the page has both a catalog and a resolved product, the related list
      keeps its value, which on a fresh page is empty. */
  lemma UnresolvedKeepsRelated(s: PageState, catalog: seq<Product>, id: string)
    requires |catalog| == 0 || Find(catalog, id).None?
    ensures Sync(s, catalog, id).related == s.related
    ensures Sync(InitialPage, catalog, id).related == []
  {
  }

  /** The selected thumbnail after a product change does not depend on the one
      selected before. */
  lemma ThumbnailForgetsSelection(s1: PageState, s2: PageState, product: Option<Product>)
    ensures ThumbnailEffect(s1, product).thumbnail == ThumbnailEffect(s2, product).thumbnail
  {
  }

  /** A thumbnail click changes the main image to the clicked one and leaves the
      product on show, with its images, as the catalog has it. */
  lemma ClickShowsImage(s: PageState, catalog: seq<Product>, id: string, k: nat)
    requires Render(catalog, id, s).Some?
    requires k < |Render(catalog, id, s).value.product.images|
    ensures var p := Render(catalog, id, s).value.product;
            var v := Render(catalog, id, ClickThumbnail(s, p, k));
            && v.Some?
            && v.value.product == p
            && v.value.mainImage == Some(p.images[k])
            && v.value.related == Render(catalog, id, s).value.related
  {
  }

  /** "See More" can show above an empty grid: a related list whose items are
      all out of stock yields the grid with no cards. */
  lemma SeeMoreWithoutCards()
    ensures var p := Product("a", "Apple", "Fruits", 1.0, 1.0, ["a.png"], [], false);
            var q := Product("b", "Banana", "Fruits", 1.0, 1.0, ["b.png"], [], false);
            var catalog := [p, q];
            var v := Render(catalog, "a", Sync(InitialPage, catalog, "a"));
            && v.Some?
            && ShowsSeeMore(v.value)
            && v.value.related == RelatedGrid([])
  {
    var p := Product("a", "Apple", "Fruits", 1.0, 1.0, ["a.png"], [], false);
    var q := Product("b", "Banana", "Fruits", 1.0, 1.0, ["b.png"], [], false);
    var catalog := [p, q];
    assert Find(catalog, "a") == Some(p);
    assert Filter(catalog, RelatedTest(p)) == [q];
    assert RelatedOf(catalog, p) == [q];
    assert Filter([q], (x: Product) => x.inStock) == [];
  }
}
