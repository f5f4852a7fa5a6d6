/**
 * The tracked-item list kept in products.json, shared by the polling script and
 * the chat bot. Each entry is a JSON object; `url` is always present, while the
 * polling script reads `title` and `notified` with defaults, so both may be absent.
 */
module Tracking {
  import opened Wrappers

  datatype Item = Item(url: string, title: Option<string>, notified: Option<bool>)

  /** `product.get('notified', False)`: an absent flag reads as "not notified". */
  function IsNotified(item: Item): bool {
    item.notified.GetOr(false)
  }

  /** The url is the natural key of the list: no two items share one. */
  predicate UrlsUnique(items: seq<Item>) {
    forall i, j :: 0 <= i < j < |items| ==> items[i].url != items[j].url
  }

  /** Some item of the list has the url `url` (`any(p["url"] == url for p in products)`). */
  predicate HasUrl(items: seq<Item>, url: string) {
    exists i :: 0 <= i < |items| && items[i].url == url
  }
}
