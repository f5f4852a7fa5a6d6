# HWUkrStoreTracker, modelled in Dafny

HWUkrStoreTracker watches product pages of Ukrainian hardware shops and tells a
Telegram chat when a product comes back in stock. It has two scripts that share one
file, `products.json`, which holds the tracked products (`url`, `title`,
`notified`):

- `stock_tracker.py` polls. In each cycle it fetches every product page. It finds
  the store profile whose `base_url` contains the page URL's netloc (its host, with
  any user information and port), reads the title and the buy button through the
  profile's CSS selectors, and classifies the product as "В наявності" (in stock)
  or "Немає в наявності" (out of stock). It then
  edge-detects on each product's `notified` flag:
  - it sends a Telegram message when an unnotified product is in stock, and sets
    the flag only if the send succeeded;
  - it clears the flag when a notified product is out of stock;
  - it writes the list back once, and only when some flag changed.
- `bot_server.py` is a Telegram webhook. It answers `/list`, `/add Назва URL КОД`,
  `/last` and `/help`. `/add` appends a product when the secret code matches and
  the url is new.

The model is split into modules that follow the code:

| file | module | models |
|---|---|---|
| `wrappers.dfy` | `Wrappers` | `Option` |
| `text.dfy` | `Text` | Python's `str.strip`, `startswith`, `in`, `split(sep, maxsplit)`, `join` and ASCII `lower` |
| `urls.dfy` | `Urls` | `urlparse(url).netloc`, using the `urlsplit` algorithm of Python 3.11.4 and later |
| `tracking.dfy` | `Tracking` | one entry of `products.json`, shared by both scripts |
| `availability.dfy` | `Availability` | `check_availability`: store resolution, title, status |
| `notification.dfy` | `Notification` | `check_products_once` after the fetch: the per-item state machine, the whole cycle as a specification function, and the `Tracker` class whose `CheckOnce` loop updates the list in place |
| `startup.dfy` | `Startup` | `load_telegram_config` and the guard and defaults at the start of `main` |
| `bot_server.dfy` | `BotServer` | `webhook`: the early returns, prefix dispatch, `/add`, the `/list` loop, `/last`, `/help` |

Fetched pages, selector hits and send outcomes are inputs:

- A page is `None` when the fetch failed. Otherwise it holds its HTML and the text
  of the title node and the buy-button node. Each node text is `None` when the
  selector matched nothing.
- `sends[i]` is what `send_telegram` returns for product `i`. It is consulted only
  when the cycle attempts that send.
- Environment variables and files are `Option` values. A missing variable or an
  unreadable file is `None`.
- The bot does not send its reply. `Webhook` returns the reply and the product
  list that `products.json` holds afterwards.

A product without a stored title is a real edge case in the source:
`send_telegram` reads `product['title']` both when building its message and again
in its exception handler. If the cycle attempts a send for such a product, the
exception leaves `check_products_once`. The model represents this as
`StepResult.Raised`, and the cycle stops there:

- later products are not visited;
- nothing is saved.

`/list` raises in the same way on a product without a title (`Response.Raised`).

## Model

| member | source | states |
|---|---|---|
| Text.Strip | stock_tracker.py:62 | `strip()` leaves no whitespace at either end and returns a contiguous slice of the input with only whitespace cut off before and after |
| Text.StripIdempotent | bot_server.py:57 | stripping twice is the same as stripping once |
| Text.Split | bot_server.py:76 | the result has at least one piece and at most `maxsplit + 1` pieces |
| Text.SplitLength | bot_server.py:76-77 | the number of pieces is one more than the smaller of the separator count and `maxsplit`, so `len(parts) < 4` exactly when the text holds fewer than three spaces |
| Text.SplitPieces | bot_server.py:76 | every piece but the last is free of the separator |
| Text.JoinSplit | bot_server.py:76 | re-joining the pieces with the separator gives back the text: split loses nothing |
| Text.SplitJoin | bot_server.py:76 | splitting a joined list with one cut fewer than there are pieces recovers the pieces; the last piece may hold separators |
| Text.AsciiLower | stock_tracker.py:144 | `lower()` keeps the length and lower-cases each ASCII capital in place |
| Urls.Netloc | stock_tracker.py:54 | the netloc never contains '/', '?' or '#' |
| Urls.NetlocOfAbsoluteUrl | stock_tracker.py:54 | for `scheme://host` followed by an empty path or one that starts with '/', '?' or '#', the netloc is exactly `host` |
| Urls.NetlocWithoutAuthority | stock_tracker.py:54 | a URL with no leading "//" and no ':' (no scheme) has an empty netloc |
| Availability.ResolveStore | stock_tracker.py:55-58 | the result is `None` exactly when no store's `base_url` contains the domain; otherwise it is the first such store in configuration order |
| Availability.ResolveStoreFirst | stock_tracker.py:55-58 | the resolved profile is the store at the first index, in configuration order, whose `base_url` contains the domain |
| Availability.EmptyDomainResolvesFirst | stock_tracker.py:54-55 | an empty netloc is contained in every `base_url`, so it resolves to the first configured store |
| Availability.CheckAvailability | stock_tracker.py:53-69 | `None` exactly when no store serves the netloc; otherwise the url is kept; the status is in stock exactly when the first serving store's buy button exists and its stripped text equals `buy_button_text`; the title is the stripped title node, else the stored title, else "Без назви" |
| Availability.PaddedButtonTextNeverInStock | stock_tracker.py:66 | the comparison is exact: when every store's expected text has surrounding whitespace, nothing is ever in stock |
| Availability.NoButtonOutOfStock | stock_tracker.py:64-67 | a page without a buy-button node is never in stock |
| Notification.Decide | stock_tracker.py:118-126 | a send is attempted exactly for an in-stock product that is not notified; the flag is cleared exactly for an out-of-stock product that is notified; every other case, including a skipped product, does nothing |
| Notification.ClassifyIgnoresFlag | stock_tracker.py:114 | the classification depends on the product's url and title, never on its `notified` flag |
| Notification.Transition | stock_tracker.py:118-126 | one iteration keeps url and title and changes only the flag; it attempts one send (with the text `send_telegram` builds) exactly when `Decide` says so; it raises exactly when that send has no title to use; afterwards the flag reads "in stock and (already notified or the send succeeded)" for a classified product and is unchanged for a skipped one; `changed` is set exactly when the product changed, that is when the flag is cleared or a send succeeds, and a changed product's flag is always written as a boolean |
| Notification.TransitionIdempotent | stock_tracker.py:118-126 | applying the iteration again to its own result, with the same classification, sends nothing and changes nothing |
| Notification.Run | stock_tracker.py:111-126 | the loop state after some iterations keeps the list's length |
| Notification.RunEffect | stock_tracker.py:110-126 | if iterations only touch flags, the loop raises exactly when a visited iteration raises; urls and titles never change; unvisited products are untouched; visited ones are what their iteration made of them; `updated` is set exactly when the list differs from where it started |
| Notification.RaisedStays | stock_tracker.py:111-126 | after an iteration raises, the rest of the loop changes nothing |
| Notification.Cycle | stock_tracker.py:110-130 | one whole cycle keeps the list's length and every product's url and title |
| Notification.CycleEffect | stock_tracker.py:105-130 | in a whole cycle only `notified` flags change: length, order, urls and titles stay and the extracted title is never written back; each product ends as `Transition` says; `updated` (and so the save) happens exactly when the list changed |
| Notification.SkippedPageUntouched | stock_tracker.py:111-113 | a product whose page was not fetched or is empty is left exactly as it was, even if another product makes the cycle raise |
| Notification.RaisedUpTo | stock_tracker.py:111-126 | when some iteration raises, the loop raises; the products before the first raising iteration take their iterations' results, and that product and every later one keep their state |
| Notification.CycleAttempts | stock_tracker.py:118-122 | a cycle that does not raise attempts one send per in-stock, unnotified product, in list order, and no other |
| Notification.SecondCycleQuiet | stock_tracker.py:110-130 | after a cycle that did not raise and whose sends all succeeded, a second cycle over the same pages sends nothing, changes nothing and so saves nothing |
| Notification.Visit | stock_tracker.py:118-126 | the loop body's branches for one item (clear the flag, attempt a send and set the flag only on success, raise for a missing title, or do nothing) yield exactly the outcome `Transition` specifies |
| Notification.Tracker.constructor | stock_tracker.py:136 | the list loaded from `products.json` is both the working list and the file content |
| Notification.Tracker.CheckOnce | stock_tracker.py:105-130 | the in-place loop leaves the list, the attempted messages and the raise exactly as `Cycle` specifies; the file is rewritten with the whole list exactly when a flag changed and nothing raised |
| Startup.LoadTelegramConfig | stock_tracker.py:73-89 | the environment is used when both variables are non-empty; otherwise the file is used when it has both "token" and "chat_id"; otherwise there is no configuration; the two sources are never mixed |
| Startup.EnvironmentWins | stock_tracker.py:78-80 | with both environment values set, the file's content does not matter |
| Startup.RunOnce | stock_tracker.py:144 | one-shot mode is on exactly when RUN_ONCE is set and equals "true" in any letter case |
| Startup.Start | stock_tracker.py:139-144 | polling starts exactly when the configuration, a non-empty product list and a Telegram configuration are all present; the interval is `check_interval`, defaulting to 1200 seconds |
| BotServer.DispatchByPrefix | bot_server.py:63-116 | each command runs exactly when the text starts with its word; the command words are not prefixes of one another, so exactly one branch runs whatever the order of the tests |
| BotServer.ParseAdd | bot_server.py:76-81 | an `/add` request is parsed exactly when the text holds at least three spaces; its title and url hold no space |
| BotServer.ParseAddRebuilds | bot_server.py:76-81 | the text is the command word, title, url and code joined by single spaces |
| BotServer.ParseAddRoundTrip | bot_server.py:76-81 | a text built from a command word, a title, a url (none holding a space) and any code parses back to exactly that title, url and code |
| BotServer.AddProduct | bot_server.py:75-98 | the list is saved exactly when the request parses, the code equals the configured secret (an unset secret rejects all codes) and the url is new; it then gains exactly `{title, url, notified: False}` at the end and is otherwise unchanged; each failure leaves the list alone; the reply is the usage text for a malformed request, else the wrong-code text, else the duplicate text, else the confirmation with the title; url uniqueness is preserved |
| BotServer.BlocksAppend | bot_server.py:69-71 | the listing of two lists placed end to end is the two listings placed end to end |
| BotServer.BlocksAt | bot_server.py:69-71 | the listing shows product `i`'s block between the blocks of the products before it and those after it |
| BotServer.ListShowsEveryProduct | bot_server.py:68-72 | every product's block (bell, title, url) appears in the `/list` reply |
| BotServer.ListMessage | bot_server.py:68-71 | the `message +=` loop builds the header followed by one block per product in order, marked 🔔 if notified and 🔕 otherwise; it fails exactly when some product has no title |
| BotServer.LastCheck | bot_server.py:39-44 | with no `last_check.txt` the reply is the fixed "no information" text; otherwise it is the file's content with surrounding whitespace cut off |
| BotServer.Webhook | bot_server.py:49-118 | a body without a message, or with blank text, gets no reply and leaves the list alone; a message without a chat raises; otherwise exactly one command's reply goes to the message's chat (`/list`: empty-list text or the listing, `/add`: the reply `AddProduct` gives, `/last`: last-check time, `/help`, unknown); only an accepted `/add` changes and saves the list |

## Left out

- The HTTP fetching with aiohttp, the `asyncio.gather` fan-out and its timeouts (stock_tracker.py:39-49, 106-108): network I/O and concurrency. Pages are an input sequence aligned with the products.
- BeautifulSoup parsing and CSS selection (stock_tracker.py:60-64): a foreign library. The selected nodes' texts are given values.
- The Telegram client and `requests.post` (stock_tracker.py:92-101, bot_server.py:21-23): network calls. A send's success is an input, and the bot's reply is returned instead of sent.
- JSON loading and saving, `last_check.txt`, `os.getenv` and logging (stock_tracker.py:18-35, bot_server.py:26-44): file and environment I/O. They are values passed in and out. JSON values of unexpected types (a non-string title, a `null` where a string is expected, a configuration without `stores`) are outside the model.
- The `while True` polling loop and `asyncio.sleep` (stock_tracker.py:146-155): `Start` gives the schedule, and `Tracker.CheckOnce` is one iteration of it.
- Flask hosting and routes (bot_server.py:7, 48, 121-127), the `"ok"` return value, and `request.get_json()` failing on a body that is not JSON.
- Urls.Netloc: the `ValueError` that `urlsplit` raises for a malformed IPv6 bracket, the `ValueError` its netloc check raises for a non-ASCII netloc whose NFKC normal form gains '/', '?', '#', '@' or ':', and the behaviour of Python versions before 3.11.4 (which keep leading control characters and spaces, and before 3.11.1 test the scheme's first character differently), are not modelled. Inside `check_availability` either error would end the whole `check_products_once` call; the model returns a netloc instead.
- Text.AsciiLower: only ASCII letters are lower-cased; `str.lower` on other letters is not modelled.
- The two scripts running at the same time: `main` loads `products.json` once, so in polling mode a save from the tracker overwrites products added by the bot in between. The model treats each script on its own.
