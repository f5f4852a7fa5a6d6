/**
 * stock_tracker.py, `check_availability`: find the store profile for a product
 * page, then derive the product's title and its availability from the nodes the
 * profile's CSS selectors pick out of the page.
 *
 * HTML parsing and CSS selection are not modelled: a fetched page carries, as
 * given values, the text of the node each selector of the item's store selects
 * (`None` when the selector matches nothing).
 */
module Availability {
  import opened Wrappers
  import opened Text
  import opened Urls
  import opened Tracking

  /** One entry of `config['stores']`, in the order the configuration lists them. */
  datatype StoreProfile = StoreProfile(
    baseUrl: string,
    titleSelector: string,
    buyButtonSelector: string,
    buyButtonText: string)

  /** A page that was fetched: its HTML and the text of the selected title and buy-button nodes. */
  datatype Page = Page(html: string, titleNode: Option<string>, buyButtonNode: Option<string>)

  /** "В наявності" (in stock) and "Немає в наявності" (out of stock). */
  datatype Status = InStock | OutOfStock

  /** The dictionary `{"url", "title", "status"}` that `check_availability` returns. */
  datatype Result = Result(url: string, title: string, status: Status)

  const NO_TITLE := "Без назви"

  /** A store serves a domain when the domain occurs in its `base_url` (`domain in s['base_url']`). */
  predicate Serves(store: StoreProfile, domain: string) {
    Contains(store.baseUrl, domain)
  }

  /** `stores[i]` serves `domain` and no store before it does. */
  predicate IsFirstServing(stores: seq<StoreProfile>, domain: string, i: int) {
    0 <= i < |stores| && Serves(stores[i], domain)
    && forall j :: 0 <= j < i ==> !Serves(stores[j], domain)
  }

  /**
   * `next((s for s in stores if domain in s['base_url']), None)`: the first
   * store, in configuration order, that serves the domain.
   */
  function ResolveStore(stores: seq<StoreProfile>, domain: string): (r: Option<StoreProfile>)
    ensures r.None? <==> forall i :: 0 <= i < |stores| ==> !Serves(stores[i], domain)
    ensures r.Some? ==> exists i :: IsFirstServing(stores, domain, i) && r.value == stores[i]
  {
    if stores == [] then None
    else if Serves(stores[0], domain) then
      assert IsFirstServing(stores, domain, 0);
      Some(stores[0])
    else
      var r := ResolveStore(stores[1..], domain);
      if r.Some? then
        var i :| IsFirstServing(stores[1..], domain, i) && r.value == stores[1..][i];
        assert IsFirstServing(stores, domain, i + 1);
        r
      else
        assert forall i :: 1 <= i < |stores| ==> stores[i] == stores[1..][i - 1];
        r
  }

  /** The first serving store is unique, so `ResolveStore` finds exactly that one. */
  lemma FirstServingUnique(stores: seq<StoreProfile>, domain: string, i: int, j: int)
    requires IsFirstServing(stores, domain, i) && IsFirstServing(stores, domain, j)
    ensures i == j
  {
  }

  /** The store `check_availability` picks is exactly the first one, in order, that serves the domain. */
  lemma ResolveStoreFirst(stores: seq<StoreProfile>, domain: string, i: int)
    requires IsFirstServing(stores, domain, i)
    ensures ResolveStore(stores, domain) == Some(stores[i])
  {
    var r := ResolveStore(stores, domain);
    assert r.Some?;
    var j :| IsFirstServing(stores, domain, j) && r.value == stores[j];
    FirstServingUnique(stores, domain, i, j);
  }

  /**
   * A URL with an empty netloc (one without "//", such as "shop.example/x") is
   * resolved to the first configured store, whatever that store's `base_url`.
   */
  lemma EmptyDomainResolvesFirst(stores: seq<StoreProfile>)
    requires stores != []
    ensures ResolveStore(stores, "") == Some(stores[0])
  {
    ContainsEmpty(stores[0].baseUrl);
  }

  /** The buy button shows exactly the store's "available" text once stripped. */
  predicate ButtonSaysAvailable(page: Page, store: StoreProfile) {
    page.buyButtonNode.Some? && Strip(page.buyButtonNode.value) == store.buyButtonText
  }

  /**
   * `check_availability(html, url, product, config)`: `None` when no store serves
   * the URL's netloc; otherwise the url, the resolved title and the status.
   */
  function CheckAvailability(page: Page, url: string, item: Item, stores: seq<StoreProfile>): (r: Option<Result>)
    ensures r.None? <==> forall i :: 0 <= i < |stores| ==> !Serves(stores[i], Netloc(url))
    ensures r.Some? ==> r.value.url == url
    ensures r.Some? ==>
      (r.value.status == InStock <==>
        exists i :: IsFirstServing(stores, Netloc(url), i) && ButtonSaysAvailable(page, stores[i]))
    ensures r.Some? && page.titleNode.Some? ==> r.value.title == Strip(page.titleNode.value)
    ensures r.Some? && page.titleNode.None? && item.title.Some? ==> r.value.title == item.title.value
    ensures r.Some? && page.titleNode.None? && item.title.None? ==> r.value.title == NO_TITLE
  {
    match ResolveStore(stores, Netloc(url))
    case None => None
    case Some(store) =>
      var title := if page.titleNode.Some? then Strip(page.titleNode.value) else item.title.GetOr(NO_TITLE);
      var status := if ButtonSaysAvailable(page, store) then InStock else OutOfStock;
      Some(Result(url, title, status))
  }

  /**
   * The comparison is exact: a store whose expected text starts or ends with
   * whitespace never reports anything in stock, because stripped button text
   * cannot equal it.
   */
  lemma PaddedButtonTextNeverInStock(page: Page, url: string, item: Item, stores: seq<StoreProfile>)
    requires forall i :: 0 <= i < |stores| ==> !Unpadded(stores[i].buyButtonText)
    ensures CheckAvailability(page, url, item, stores).None?
         || CheckAvailability(page, url, item, stores).value.status == OutOfStock
  {
  }

  /** A page without a buy-button node is never in stock. */
  lemma NoButtonOutOfStock(page: Page, url: string, item: Item, stores: seq<StoreProfile>)
    requires page.buyButtonNode.None?
    ensures CheckAvailability(page, url, item, stores).None?
         || CheckAvailability(page, url, item, stores).value.status == OutOfStock
  {
  }
}
