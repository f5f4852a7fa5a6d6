/**
 * bot_server.py, the `webhook` handler: one Telegram update in, the reply it
 * sends and the product list it leaves in products.json out.
 *
 * Loading and saving products.json, reading last_check.txt, the BOT_SECRET_CODE
 * variable and `send_message` are values here: the handler receives the list as
 * `load_products` returns it and the other inputs as given, and returns the reply
 * it would send instead of sending it.
 */
module BotServer {
  import opened Wrappers
  import opened Text
  import opened Tracking

  /** The "message" object of an update: `chat.id` (absent if the chat is missing) and `text`. */
  datatype Message = Message(chatId: Option<int>, text: Option<string>)

  /** The JSON body of a webhook call: it may lack a "message". */
  datatype Update = Update(message: Option<Message>)

  datatype Reply = Reply(chatId: int, text: string)

  /**
   * What one webhook call does: the reply sent (if any), the product list as the
   * file holds it afterwards and whether it was written; or `Raised` when the
   * handler raises (a message without a chat, a listed product without a title).
   */
  datatype Response = Handled(reply: Option<Reply>, stored: seq<Item>, saved: bool) | Raised

  datatype Command = ListCommand | AddCommand | LastCommand | HelpCommand | UnknownCommand

  const EMPTY_LIST_TEXT := "📭 Немає товарів для відстеження."
  const LIST_HEADER := "📦 *Список товарів для відстеження:*\n\n"
  const ADD_USAGE_TEXT := "❗ Формат команди:\n`/add Назва URL СЕКРЕТНИЙ_КОД`"
  const WRONG_CODE_TEXT := "🚫 Невірний секретний код."
  const DUPLICATE_TEXT := "⚠️ Цей товар уже є в списку."
  const NO_LAST_CHECK_TEXT := "Інформація про останню перевірку відсутня."
  const LAST_CHECK_PREFIX := "🕓 Остання перевірка виконана:\n"
  const HELP_TEXT := "🤖 *Команди бота:*\n/list — показати список товарів\n/add Назва URL СЕКРЕТНИЙ_КОД — додати новий товар\n/last — показати коли була остання перевірка\n"
  const UNKNOWN_TEXT := "❔ Невідома команда. Використай /help для списку команд."

  function AddedText(title: string): string {
    "✅ Товар *" + title + "* додано до списку відстеження."
  }

  /** `msg.get("text", "").strip()`. */
  function IncomingText(m: Message): string {
    Strip(m.text.GetOr(""))
  }

  /** The chain of `startswith` tests, in the handler's order. */
  function Dispatch(text: string): Command {
    if StartsWith(text, "/list") then ListCommand
    else if StartsWith(text, "/add") then AddCommand
    else if StartsWith(text, "/last") then LastCommand
    else if StartsWith(text, "/help") then HelpCommand
    else UnknownCommand
  }

  /**
   * No command word is a prefix of another ("/list" and "/last" part at their third
   * character), so each command runs exactly when the text starts with its word,
   * whatever order the tests are made in.
   */
  lemma DispatchByPrefix(text: string)
    ensures Dispatch(text) == ListCommand <==> StartsWith(text, "/list")
    ensures Dispatch(text) == AddCommand <==> StartsWith(text, "/add")
    ensures Dispatch(text) == LastCommand <==> StartsWith(text, "/last")
    ensures Dispatch(text) == HelpCommand <==> StartsWith(text, "/help")
    ensures Dispatch(text) == UnknownCommand <==>
              !StartsWith(text, "/list") && !StartsWith(text, "/add")
              && !StartsWith(text, "/last") && !StartsWith(text, "/help")
  {
    if StartsWith(text, "/add") {
      assert text[1] == "/add"[1];
    }
    if StartsWith(text, "/last") {
      assert text[1] == "/last"[1] && text[2] == "/last"[2];
    }
    if StartsWith(text, "/help") {
      assert text[1] == "/help"[1];
    }
  }

  /** The three fields of `/add Назва URL СЕКРЕТНИЙ_КОД`. */
  datatype AddRequest = AddRequest(title: string, url: string, code: string)

  /**
   * `parts = text.split(" ", 3)` with the `len(parts) < 4` test: the request exists
   * exactly when the text holds at least three spaces, and its title and url hold
   * none (the code is the rest of the text, spaces included).
   */
  function ParseAdd(text: string): (r: Option<AddRequest>)
    ensures r.Some? <==> Count(text, ' ') >= 3
    ensures r.Some? ==> ' ' !in r.value.title && ' ' !in r.value.url
  {
    var parts := Split(text, ' ', 3);
    SplitLength(text, ' ', 3);
    SplitPieces(text, ' ', 3);
    if |parts| < 4 then None else Some(AddRequest(parts[1], parts[2], parts[3]))
  }

  /** Nothing of the text is lost: it is the command word and the three fields, separated by single spaces. */
  lemma ParseAddRebuilds(text: string)
    requires ParseAdd(text).Some?
    ensures exists command :: ' ' !in command &&
              text == command + " " + ParseAdd(text).value.title + " " + ParseAdd(text).value.url
                      + " " + ParseAdd(text).value.code
  {
    var parts := Split(text, ' ', 3);
    var req := ParseAdd(text).value;
    assert |parts| == 4 && req == AddRequest(parts[1], parts[2], parts[3]);
    SplitPieces(text, ' ', 3);
    assert ' ' !in parts[0];
    JoinSplit(text, ' ', 3);
    assert parts == [parts[0], req.title, req.url, req.code];
    JoinFour(parts[0], req.title, req.url, req.code, ' ');
    assert text == parts[0] + " " + req.title + " " + req.url + " " + req.code;
  }

  lemma JoinFour(a: string, b: string, c: string, d: string, sep: char)
    ensures Join([a, b, c, d], sep) == a + [sep] + b + [sep] + c + [sep] + d
  {
    assert [c, d][1..] == [d];
    assert Join([c, d], sep) == c + [sep] + d;
    assert [b, c, d][1..] == [c, d];
    assert Join([b, c, d], sep) == b + [sep] + (c + [sep] + d);
    assert [a, b, c, d][1..] == [b, c, d];
    assert Join([a, b, c, d], sep) == a + [sep] + (b + [sep] + (c + [sep] + d));
  }

  /** Round trip: a well-formed `/add` text yields back exactly the fields it was built from. */
  lemma ParseAddRoundTrip(command: string, title: string, url: string, code: string)
    requires ' ' !in command && ' ' !in title && ' ' !in url
    ensures ParseAdd(command + " " + title + " " + url + " " + code)
         == Some(AddRequest(title, url, code))
  {
    var parts := [command, title, url, code];
    JoinFour(command, title, url, code, ' ');
    SplitJoin(parts, ' ');
  }

  /** The item a successful `/add` appends. */
  function NewItem(req: AddRequest): Item {
    Item(req.url, Some(req.title), Some(false))
  }

  /** `/add` goes through: it parses, the code is the configured secret, and the url is new. */
  predicate Accepts(text: string, stored: seq<Item>, secret: Option<string>) {
    var req := ParseAdd(text);
    req.Some? && secret == Some(req.value.code) && !HasUrl(stored, req.value.url)
  }

  /**
   * The reply `/add` sends: the usage text for a malformed request, then the
   * wrong-code text, then the duplicate text, and otherwise the confirmation.
   */
  function AddReply(text: string, stored: seq<Item>, secret: Option<string>): string {
    match ParseAdd(text)
    case None => ADD_USAGE_TEXT
    case Some(req) =>
      if secret != Some(req.code) then WRONG_CODE_TEXT
      else if HasUrl(stored, req.url) then DUPLICATE_TEXT
      else AddedText(req.title)
  }

  /**
   * The `/add` branch: on success exactly one new item `{title, url, notified: False}`
   * is appended at the end and the list is saved; on every failure the list is left
   * alone and the reply names the failure. An unset secret rejects every code.
   */
  method AddProduct(text: string, stored: seq<Item>, secret: Option<string>)
    returns (reply: string, products: seq<Item>, saved: bool)
    ensures saved <==> Accepts(text, stored, secret)
    ensures saved ==> products == stored + [NewItem(ParseAdd(text).value)]
    ensures !saved ==> products == stored
    ensures ParseAdd(text).None? ==> reply == ADD_USAGE_TEXT
    ensures ParseAdd(text).Some? && secret != Some(ParseAdd(text).value.code) ==> reply == WRONG_CODE_TEXT
    ensures ParseAdd(text).Some? && secret == Some(ParseAdd(text).value.code) && HasUrl(stored, ParseAdd(text).value.url)
            ==> reply == DUPLICATE_TEXT
    ensures saved ==> reply == AddedText(ParseAdd(text).value.title)
    ensures reply == AddReply(text, stored, secret)
    ensures UrlsUnique(stored) ==> UrlsUnique(products)
  {
    var req := ParseAdd(text);
    if req.None? {
      return ADD_USAGE_TEXT, stored, false;
    }
    var AddRequest(title, url, code) := req.value;
    if secret != Some(code) {
      return WRONG_CODE_TEXT, stored, false;
    }
    products := stored;
    if exists i :: 0 <= i < |products| && products[i].url == url {
      return DUPLICATE_TEXT, stored, false;
    }
    products := products + [Item(url, Some(title), Some(false))];
    saved := true;
    reply := AddedText(title);
  }

  /** A product list where every entry has a title, as `/list` needs (`p['title']`). */
  predicate AllTitled(ps: seq<Item>) {
    forall i :: 0 <= i < |ps| ==> ps[i].title.Some?
  }

  /** 🔔 for a notified product, 🔕 otherwise (`p.get("notified")`). */
  function Bell(p: Item): string {
    if IsNotified(p) then "🔔" else "🔕"
  }

  /** One product's lines in the `/list` reply. */
  function Block(p: Item): string
    requires p.title.Some?
  {
    Bell(p) + " " + p.title.value + "\n" + p.url + "\n\n"
  }

  /** The blocks of all products, in list order. */
  function Blocks(ps: seq<Item>): string
    requires AllTitled(ps)
  {
    if ps == [] then "" else Blocks(ps[..|ps| - 1]) + Block(ps[|ps| - 1])
  }

  /** The listing of a concatenation is the concatenation of the listings. */
  lemma {:induction false} BlocksAppend(a: seq<Item>, b: seq<Item>)
    requires AllTitled(a) && AllTitled(b)
    ensures AllTitled(a + b) && Blocks(a + b) == Blocks(a) + Blocks(b)
    decreases |b|, 1
  {
    if b == [] {
      assert a + b == a;
    } else {
      BlocksAppendLast(a, b);
    }
  }

  lemma {:induction false} BlocksAppendLast(a: seq<Item>, b: seq<Item>)
    requires AllTitled(a) && AllTitled(b) && b != []
    ensures AllTitled(a + b) && Blocks(a + b) == Blocks(a) + Blocks(b)
    decreases |b|, 0
  {
    var b' := b[..|b| - 1];
    BlocksAppend(a, b');
    assert (a + b)[..|a + b| - 1] == a + b';
    assert (a + b)[|a + b| - 1] == b[|b| - 1];
    ConcatAssoc(Blocks(a), Blocks(b'), Block(b[|b| - 1]));
  }

  /**
   * The listing holds one block per product, in list order: the block of product
   * `i` sits between the blocks of the products before it and those after it.
   */
  lemma {:induction false} BlocksAt(ps: seq<Item>, i: int)
    requires AllTitled(ps) && 0 <= i < |ps|
    ensures Blocks(ps) == Blocks(ps[..i]) + Block(ps[i]) + Blocks(ps[i + 1..])
  {
    var before, after := ps[..i], ps[i + 1..];
    assert ps == before + [ps[i]] + after;
    BlocksOne(ps[i]);
    BlocksAppend(before, [ps[i]]);
    BlocksAppend(before + [ps[i]], after);
  }

  lemma BlocksOne(p: Item)
    requires p.title.Some?
    ensures Blocks([p]) == Block(p)
  {
    assert [p][..0] == [];
  }

  /** Every product's block appears in the `/list` reply. */
  lemma {:induction false} ListShowsEveryProduct(ps: seq<Item>, i: int)
    requires AllTitled(ps) && 0 <= i < |ps|
    ensures Contains(LIST_HEADER + Blocks(ps), Block(ps[i]))
  {
    BlocksAt(ps, i);
    ConcatAssoc(LIST_HEADER, Blocks(ps[..i]) + Block(ps[i]), Blocks(ps[i + 1..]));
    ConcatAssoc(LIST_HEADER, Blocks(ps[..i]), Block(ps[i]));
    ContainsMiddle(LIST_HEADER + Blocks(ps[..i]), Block(ps[i]), Blocks(ps[i + 1..]));
  }

  /** One turn of the `/list` loop appends the next product's block. */
  lemma ListStep(products: seq<Item>, i: int)
    requires 0 <= i < |products| && AllTitled(products[..i]) && products[i].title.Some?
    ensures AllTitled(products[..i + 1])
    ensures LIST_HEADER + Blocks(products[..i + 1]) == LIST_HEADER + Blocks(products[..i]) + Block(products[i])
  {
    assert products[..i + 1][..i] == products[..i];
  }

  /**
   * The `/list` loop (`message += ...` per product): the header followed by every
   * product's block, or nothing when some product has no title (the handler raises).
   */
  method ListMessage(products: seq<Item>) returns (text: Option<string>)
    ensures text.None? <==> !AllTitled(products)
    ensures text.Some? ==> text.value == LIST_HEADER + Blocks(products)
  {
    var message := LIST_HEADER;
    var i := 0;
    while i < |products|
      invariant 0 <= i <= |products|
      invariant AllTitled(products[..i])
      invariant message == LIST_HEADER + Blocks(products[..i])
    {
      var p := products[i];
      if p.title.None? {
        return None;
      }
      ListStep(products, i);
      message := message + Block(p);
      i := i + 1;
    }
    assert products[..i] == products;
    return Some(message);
  }

  /** `get_last_check()`: the stripped content of last_check.txt, or a fixed text when it is missing. */
  function LastCheck(file: Option<string>): (r: string)
    ensures file.None? ==> r == NO_LAST_CHECK_TEXT
    ensures file.Some? ==> Unpadded(r) && exists i :: TrimmedAt(file.value, i, r)
  {
    if file.None? then NO_LAST_CHECK_TEXT else Strip(file.value)
  }

  /**
   * `webhook()`: an update without a message, or with blank text, is acknowledged
   * without a reply; otherwise exactly one command branch runs, chosen by prefix.
   * Only a successful `/add` changes the stored list.
   */
  method Webhook(update: Update, stored: seq<Item>, secret: Option<string>, lastCheck: Option<string>)
    returns (r: Response)
    ensures update.message.None? ==> r == Handled(None, stored, false)
    ensures update.message.Some? && update.message.value.chatId.None? ==> r == Raised
    ensures update.message.Some? && IncomingText(update.message.value) == [] && update.message.value.chatId.Some?
            ==> r == Handled(None, stored, false)
    ensures r.Raised? <==>
              update.message.Some? &&
              (update.message.value.chatId.None?
               || (IncomingText(update.message.value) != [] && Dispatch(IncomingText(update.message.value)) == ListCommand
                   && !AllTitled(stored)))
    ensures r.Handled? && r.reply.Some? ==> r.reply.value.chatId == update.message.value.chatId.value
    ensures r.Handled? ==>
              (r.saved <==> update.message.Some? && IncomingText(update.message.value) != []
                            && Dispatch(IncomingText(update.message.value)) == AddCommand
                            && Accepts(IncomingText(update.message.value), stored, secret))
    ensures r.Handled? && r.saved ==> r.stored == stored + [NewItem(ParseAdd(IncomingText(update.message.value)).value)]
    ensures r.Handled? && !r.saved ==> r.stored == stored
    ensures r.Handled? && update.message.Some? && IncomingText(update.message.value) != [] ==>
              var text := IncomingText(update.message.value);
              r.reply.Some? &&
              match Dispatch(text)
              case ListCommand => r.reply.value.text ==
                                    if stored == [] then EMPTY_LIST_TEXT else LIST_HEADER + Blocks(stored)
              case AddCommand => r.reply.value.text == AddReply(text, stored, secret)
              case LastCommand => r.reply.value.text == LAST_CHECK_PREFIX + LastCheck(lastCheck)
              case HelpCommand => r.reply.value.text == HELP_TEXT
              case UnknownCommand => r.reply.value.text == UNKNOWN_TEXT
  {
    if update.message.None? {
      return Handled(None, stored, false);
    }
    var msg := update.message.value;
    if msg.chatId.None? {
      return Raised;
    }
    var chatId := msg.chatId.value;
    var text := IncomingText(msg);
    if text == [] {
      return Handled(None, stored, false);
    }
    match Dispatch(text) {
      case ListCommand =>
        if stored == [] {
          r := Handled(Some(Reply(chatId, EMPTY_LIST_TEXT)), stored, false);
        } else {
          var listing := ListMessage(stored);
          if listing.None? {
            return Raised;
          }
          r := Handled(Some(Reply(chatId, listing.value)), stored, false);
        }
      case AddCommand =>
        var reply, products, saved := AddProduct(text, stored, secret);
        r := Handled(Some(Reply(chatId, reply)), products, saved);
      case LastCommand =>
        r := Handled(Some(Reply(chatId, LAST_CHECK_PREFIX + LastCheck(lastCheck))), stored, false);
      case HelpCommand =>
        r := Handled(Some(Reply(chatId, HELP_TEXT)), stored, false);
      case UnknownCommand =>
        r := Handled(Some(Reply(chatId, UNKNOWN_TEXT)), stored, false);
    }
  }
}
