/**
 * stock_tracker.py, `check_products_once` after its fetch barrier: walk the
 * tracked items in order, classify each fetched page, and edge-detect on the
 * item's `notified` flag; write the list back once, and only if a flag changed.
 *
 * The fan-out of HTTP requests is not modelled: the pages arrive as a sequence
 * aligned with the items (`None` for a failed fetch). The Telegram send is not
 * modelled either: `sends[i]` is what `send_telegram` would return for item `i`,
 * consulted only when the cycle attempts that send.
 */
module Notification {
  import opened Wrappers
  import opened Tracking
  import opened Availability

  /** What the state machine does with one item. */
  datatype Action = NoChange | AttemptSend | ClearFlag

  /**
   * The state-machine table: send on the unavailable-to-available edge, clear the
   * flag on the available-to-unavailable edge, otherwise nothing. `None` is a page
   * that was not fetched or an item whose store was not found.
   */
  function Decide(result: Option<Result>, notified: bool): (a: Action)
    ensures a == AttemptSend <==> result.Some? && result.value.status == InStock && !notified
    ensures a == ClearFlag <==> result.Some? && result.value.status == OutOfStock && notified
  {
    match result
    case None => NoChange
    case Some(res) =>
      match res.status
      case InStock => if notified then NoChange else AttemptSend
      case OutOfStock => if notified then ClearFlag else NoChange
  }

  /** `if not html: continue`: a failed fetch and an empty page are both skipped. */
  predicate Usable(page: Option<Page>) {
    page.Some? && page.value.html != ""
  }


  /** What the loop classifies one item as: `None` for a skipped page or an unknown store. */
  function Classify(item: Item, page: Option<Page>, stores: seq<StoreProfile>): Option<Result> {
    if Usable(page) then CheckAvailability(page.value, item.url, item, stores) else None
  }

  /** The classification reads an item's url and title, never its flag. */
  lemma ClassifyIgnoresFlag(a: Item, b: Item, page: Option<Page>, stores: seq<StoreProfile>)
    requires a.url == b.url && a.title == b.title
    ensures Classify(a, page, stores) == Classify(b, page, stores)
  {
  }

  /** The Telegram text `send_telegram` builds from the stored title and the url. */
  function NotificationText(title: string, url: string): string {
    "🟢 Товар в наявності!\n" + title + "\n" + url
  }

  /**
   * The outcome of one iteration: the item afterwards, the message whose delivery
   * was attempted (if any) and whether the item changed; or `Raised` when the
   * iteration raises out of the loop.
   */
  datatype StepResult = Done(item: Item, attempt: Option<string>, changed: bool) | Raised

  /**
   * One iteration of the loop, given the item's classification and what the send
   * would return. `send_telegram` reads `product['title']` both when building the
   * message and again in its exception handler, so an item without a stored title
   * makes the send raise past its handler.
   *
   * Only the `notified` flag is ever touched; afterwards it reads "in stock and
   * (already notified or the send succeeded)" for a classified item and is
   * unchanged otherwise; exactly the unnotified in-stock items get one attempt.
   */
  function Transition(item: Item, result: Option<Result>, sendOk: bool): (r: StepResult)
    ensures r.Raised? <==> Decide(result, IsNotified(item)) == AttemptSend && item.title.None?
    ensures r.Done? ==> r.item.url == item.url && r.item.title == item.title
    ensures r.Done? ==> (r.changed <==> r.item != item)
    ensures r.Done? ==> (r.attempt.Some? <==> Decide(result, IsNotified(item)) == AttemptSend)
    ensures r.Done? && r.attempt.Some? ==> r.attempt.value == NotificationText(item.title.value, item.url)
    ensures r.Done? && result.None? ==> IsNotified(r.item) == IsNotified(item)
    ensures r.Done? && result.Some? ==>
              (IsNotified(r.item) <==> result.value.status == InStock && (IsNotified(item) || sendOk))
    ensures r.Done? ==>
              (r.changed <==> Decide(result, IsNotified(item)) == ClearFlag
                              || (Decide(result, IsNotified(item)) == AttemptSend && sendOk))
    ensures r.Done? && r.changed ==> r.item.notified == Some(IsNotified(r.item))
  {
    match Decide(result, IsNotified(item))
    case NoChange => Done(item, None, false)
    case ClearFlag => Done(item.(notified := Some(false)), None, true)
    case AttemptSend =>
      if item.title.None? then Raised
      else
        var message := NotificationText(item.title.value, item.url);
        if sendOk then Done(item.(notified := Some(true)), Some(message), true)
        else Done(item, Some(message), false)
  }

  /**
   * A second transition on the item that a successful transition produced, with the
   * same classification, does nothing, whatever the send would return.
   */
  lemma TransitionIdempotent(item: Item, result: Option<Result>, sendOk: bool)
    requires Transition(item, result, true).Done?
    ensures var after := Transition(item, result, true).item;
            Transition(after, result, sendOk) == Done(after, None, false)
  {
  }

  /** The loop's state after some items: the list, the attempted messages, `updated`, and whether it raised. */
  datatype CycleState = CycleState(items: seq<Item>, attempts: seq<string>, updated: bool, raised: bool)

  /**
   * The loop's state after applying the first `n` per-item outcomes in list order.
   * Once an iteration raises, the remaining items are not visited.
   */
  function Run(items: seq<Item>, steps: seq<StepResult>, n: nat): (s: CycleState)
    requires |steps| == |items| && n <= |items|
    ensures |s.items| == |items|
  {
    if n == 0 then CycleState(items, [], false, false)
    else
      var s := Run(items, steps, n - 1);
      if s.raised then s
      else match steps[n - 1]
        case Raised => s.(raised := true)
        case Done(item, attempt, changed) =>
          CycleState(s.items[n - 1 := item],
                     s.attempts + (if attempt.Some? then [attempt.value] else []),
                     s.updated || changed, false)
  }

  predicate Aligned(items: seq<Item>, pages: seq<Option<Page>>, sends: seq<bool>) {
    |pages| == |items| && |sends| == |items|
  }

  /** The classification of every item (the pages are fetched before the loop starts). */
  function Classifications(items: seq<Item>, pages: seq<Option<Page>>, stores: seq<StoreProfile>): (rs: seq<Option<Result>>)
    requires |pages| == |items|
    ensures |rs| == |items|
    ensures forall i :: 0 <= i < |items| ==> rs[i] == Classify(items[i], pages[i], stores)
  {
    seq(|items|, i requires 0 <= i < |items| => Classify(items[i], pages[i], stores))
  }

  /** The outcome of every iteration, computed as if each were reached. */
  function Outcomes(items: seq<Item>, results: seq<Option<Result>>, sends: seq<bool>): (rs: seq<StepResult>)
    requires |results| == |items| && |sends| == |items|
    ensures |rs| == |items|
    ensures forall i :: 0 <= i < |items| ==> rs[i] == Transition(items[i], results[i], sends[i])
  {
    seq(|items|, i requires 0 <= i < |items| => Transition(items[i], results[i], sends[i]))
  }

  /**
   * One whole cycle of `check_products_once` over the list: every item's iteration,
   * in list order, until the end or the first raise.
   */
  function Cycle(items: seq<Item>, pages: seq<Option<Page>>, stores: seq<StoreProfile>, sends: seq<bool>): (c: CycleState)
    requires Aligned(items, pages, sends)
    ensures |c.items| == |items|
    ensures forall i :: 0 <= i < |items| ==> c.items[i].url == items[i].url && c.items[i].title == items[i].title
  {
    var steps := Outcomes(items, Classifications(items, pages, stores), sends);
    RunEffect(items, steps, |items|);
    Run(items, steps, |items|)
  }

  /** Each outcome keeps its item's url and title and reports a change exactly when the item changed. */
  predicate FlagOnly(items: seq<Item>, steps: seq<StepResult>)
    requires |steps| == |items|
  {
    forall i :: 0 <= i < |items| && steps[i].Done? ==>
      steps[i].item.url == items[i].url && steps[i].item.title == items[i].title
      && (steps[i].changed <==> steps[i].item != items[i])
  }

  /**
   * The state after `n` outcomes that only touch the flag: the loop raised iff some
   * visited outcome raised; urls, titles, order and length never change; unvisited
   * items are untouched, visited ones become their outcome's item; and `updated` is
   * set exactly when the list differs from what it was.
   */
  predicate Effect(items: seq<Item>, steps: seq<StepResult>, n: nat, s: CycleState)
    requires |steps| == |items| && n <= |items| && |s.items| == |items|
  {
    (!s.raised <==> forall i :: 0 <= i < n ==> steps[i].Done?)
    && (forall i :: 0 <= i < |items| ==> s.items[i].url == items[i].url && s.items[i].title == items[i].title)
    && (forall i :: n <= i < |items| ==> s.items[i] == items[i])
    && (!s.raised ==> forall i :: 0 <= i < n ==> s.items[i] == steps[i].item)
    && (!s.raised ==> (s.updated <==> s.items != items))
  }

  /** Running flag-only outcomes has the effect `Effect` describes, after any number of them. */
  lemma {:induction false} RunEffect(items: seq<Item>, steps: seq<StepResult>, n: nat)
    requires |steps| == |items| && n <= |items|
    requires FlagOnly(items, steps)
    ensures Effect(items, steps, n, Run(items, steps, n))
    decreases n, 1
  {
    if n > 0 {
      RunEffectNext(items, steps, n);
    }
  }

  lemma {:induction false} RunEffectNext(items: seq<Item>, steps: seq<StepResult>, n: nat)
    requires |steps| == |items| && 0 < n <= |items|
    requires FlagOnly(items, steps)
    ensures Effect(items, steps, n, Run(items, steps, n))
    decreases n, 0
  {
    RunEffect(items, steps, n - 1);
    var prev := Run(items, steps, n - 1);
    if !prev.raised && steps[n - 1].Done? {
      EffectDone(items, steps, n, prev);
    }
  }

  /** An iteration that does not raise keeps `Effect` true. */
  lemma EffectDone(items: seq<Item>, steps: seq<StepResult>, n: nat, prev: CycleState)
    requires |steps| == |items| && 0 < n <= |items|
    requires FlagOnly(items, steps)
    requires prev == Run(items, steps, n - 1) && !prev.raised && steps[n - 1].Done?
    requires Effect(items, steps, n - 1, prev)
    ensures Effect(items, steps, n, Run(items, steps, n))
  {
    RunNext(items, steps, n - 1);
    EffectAfter(items, steps, n, prev, Run(items, steps, n));
  }

  lemma EffectAfter(items: seq<Item>, steps: seq<StepResult>, n: nat, prev: CycleState, s: CycleState)
    requires |steps| == |items| && 0 < n <= |items| && |prev.items| == |items|
    requires FlagOnly(items, steps)
    requires !prev.raised && steps[n - 1].Done?
    requires Effect(items, steps, n - 1, prev)
    requires !s.raised && s.items == prev.items[n - 1 := steps[n - 1].item]
    requires s.updated == (prev.updated || steps[n - 1].changed)
    ensures Effect(items, steps, n, s)
  {
    UpdateDiffers(prev.items, items, n - 1, steps[n - 1].item);
  }

  /** Overwriting index `k` of a list that agrees with `b` there makes it differ from `b` exactly when it already did or the new element differs. */
  lemma UpdateDiffers(a: seq<Item>, b: seq<Item>, k: int, x: Item)
    requires |a| == |b| && 0 <= k < |a| && a[k] == b[k]
    ensures a[k := x] != b <==> a != b || x != b[k]
  {
    if a != b {
      var j :| 0 <= j < |a| && a[j] != b[j];
      assert a[k := x][j] != b[j];
    } else if x != b[k] {
      assert a[k := x][k] != b[k];
    }
  }

  /** One more iteration that does not raise: the outcome's item, message and change are recorded. */
  lemma RunNext(items: seq<Item>, steps: seq<StepResult>, n: nat)
    requires |steps| == |items| && n < |items|
    requires !Run(items, steps, n).raised && steps[n].Done?
    ensures var s := Run(items, steps, n);
            var r := steps[n];
            Run(items, steps, n + 1)
            == CycleState(s.items[n := r.item], s.attempts + (if r.attempt.Some? then [r.attempt.value] else []),
                          s.updated || r.changed, false)
  {
  }

  /** One iteration that does not raise, in the form the in-place loop performs it. */
  lemma StepTo(items: seq<Item>, steps: seq<StepResult>, i: nat, products: seq<Item>, attempts: seq<string>,
               updated: bool, next: Item, attempt: Option<string>, changed: bool)
    requires |steps| == |items| && i < |items| == |products|
    requires Run(items, steps, i) == CycleState(products, attempts, updated, false)
    requires steps[i] == Done(next, attempt, changed)
    requires !changed ==> next == products[i]
    ensures Run(items, steps, i + 1)
         == CycleState(if changed then products[i := next] else products,
                       if attempt.Some? then attempts + [attempt.value] else attempts,
                       updated || changed, false)
  {
    RunNext(items, steps, i);
    if !changed {
      assert products[i := next] == products;
    }
    if attempt.None? {
      assert attempts + [] == attempts;
    }
  }

  /** An iteration that raises ends the loop with the state it found. */
  lemma RunRaises(items: seq<Item>, steps: seq<StepResult>, n: nat)
    requires |steps| == |items| && n < |items|
    requires !Run(items, steps, n).raised && steps[n].Raised?
    ensures Run(items, steps, |items|) == Run(items, steps, n).(raised := true)
  {
    RaisedStays(items, steps, n + 1, |items|);
  }

  /** After one iteration has raised, the rest of the loop changes nothing. */
  lemma {:induction false} RaisedStays(items: seq<Item>, steps: seq<StepResult>, k: nat, n: nat)
    requires |steps| == |items| && k <= n <= |items|
    requires Run(items, steps, k).raised
    ensures Run(items, steps, n) == Run(items, steps, k)
    decreases n
  {
    if n > k {
      RaisedStays(items, steps, k, n - 1);
    }
  }

  /**
   * Only `notified` flags change in a cycle: length, order, urls and titles stay,
   * and the title `check_availability` extracts is never written back. Every item
   * ends as `Transition` says when the cycle does not raise, and the list is to be
   * saved (`updated`) exactly when it differs from the list the cycle started with.
   */
  lemma CycleEffect(items: seq<Item>, pages: seq<Option<Page>>, stores: seq<StoreProfile>, sends: seq<bool>)
    requires Aligned(items, pages, sends)
    ensures var s := Cycle(items, pages, stores, sends);
      var results := Classifications(items, pages, stores);
      (!s.raised <==> forall i :: 0 <= i < |items| ==> Transition(items[i], results[i], sends[i]).Done?)
      && |s.items| == |items|
      && (forall i :: 0 <= i < |items| ==> s.items[i].url == items[i].url && s.items[i].title == items[i].title)
      && (!s.raised ==> forall i :: 0 <= i < |items| ==> s.items[i] == Transition(items[i], results[i], sends[i]).item)
      && (!s.raised ==> (s.updated <==> s.items != items))
  {
    var steps := Outcomes(items, Classifications(items, pages, stores), sends);
    RunEffect(items, steps, |items|);
  }

  /**
   * Partial failure: an item whose page was not fetched (or was empty) is left
   * exactly as it was, while every other item is still processed.
   */
  lemma SkippedPageUntouched(items: seq<Item>, pages: seq<Option<Page>>, stores: seq<StoreProfile>, sends: seq<bool>, i: int)
    requires Aligned(items, pages, sends) && 0 <= i < |items|
    requires !Usable(pages[i])
    ensures Cycle(items, pages, stores, sends).items[i] == items[i]
  {
    var steps := Outcomes(items, Classifications(items, pages, stores), sends);
    RunEffect(items, steps, |items|);
    var s := Run(items, steps, |items|);
    if s.raised {
      var k :| 0 <= k < |items| && steps[k].Raised?;
      RaisedUpTo(items, steps, k);
    }
  }

  /**
   * When some iteration raises, the first one that does (`FirstRaised`) ends the
   * loop: items from it on keep their state, items before it take their outcome.
   */
  lemma RaisedUpTo(items: seq<Item>, steps: seq<StepResult>, k: nat)
    requires |steps| == |items| && k < |items|
    requires FlagOnly(items, steps)
    requires steps[k].Raised?
    ensures Run(items, steps, |items|).raised
    ensures forall i :: FirstRaised(steps, k) <= i < |items| ==> Run(items, steps, |items|).items[i] == items[i]
    ensures forall i :: 0 <= i < FirstRaised(steps, k) ==>
              steps[i].Done? && Run(items, steps, |items|).items[i] == steps[i].item
  {
    var j := FirstRaised(steps, k);
    RunEffect(items, steps, j);
    RunRaises(items, steps, j);
  }

  /** The index of the first raising outcome, at or before `k`. */
  function FirstRaised(steps: seq<StepResult>, k: nat): (j: nat)
    requires k < |steps| && steps[k].Raised?
    ensures j <= k && steps[j].Raised? && forall i :: 0 <= i < j ==> steps[i].Done?
  {
    if forall i :: 0 <= i < k ==> steps[i].Done? then k
    else
      var i :| 0 <= i < k && !steps[i].Done?;
      FirstRaised(steps, i)
  }

  /** The messages attempted for the first `n` items: one per item whose action is `AttemptSend`. */
  function Attempted(items: seq<Item>, results: seq<Option<Result>>, n: nat): seq<string>
    requires |results| == |items| && n <= |items|
  {
    if n == 0 then []
    else
      var item := items[n - 1];
      Attempted(items, results, n - 1)
      + (if Decide(results[n - 1], IsNotified(item)) == AttemptSend
         then [NotificationText(item.title.GetOr(""), item.url)] else [])
  }

  lemma {:induction false} RunAttempts(items: seq<Item>, results: seq<Option<Result>>, sends: seq<bool>, n: nat)
    requires |results| == |items| && |sends| == |items| && n <= |items|
    requires !Run(items, Outcomes(items, results, sends), n).raised
    ensures Run(items, Outcomes(items, results, sends), n).attempts == Attempted(items, results, n)
  {
    if n > 0 {
      RunAttempts(items, results, sends, n - 1);
    }
  }

  /**
   * When a cycle does not raise, it attempts exactly one send per item that is in
   * stock and not yet notified, in list order, and none for any other item (in
   * particular none for a skipped page or an unknown store).
   */
  lemma CycleAttempts(items: seq<Item>, pages: seq<Option<Page>>, stores: seq<StoreProfile>, sends: seq<bool>)
    requires Aligned(items, pages, sends)
    ensures !Cycle(items, pages, stores, sends).raised ==>
            Cycle(items, pages, stores, sends).attempts == Attempted(items, Classifications(items, pages, stores), |items|)
  {
    if !Cycle(items, pages, stores, sends).raised {
      RunAttempts(items, Classifications(items, pages, stores), sends, |items|);
    }
  }

  /** Outcomes that all leave their item alone leave the whole list alone. */
  lemma {:induction false} RunQuiet(items: seq<Item>, steps: seq<StepResult>, n: nat)
    requires |steps| == |items| && n <= |items|
    requires forall i :: 0 <= i < |items| ==> steps[i] == Done(items[i], None, false)
    ensures Run(items, steps, n) == CycleState(items, [], false, false)
  {
    if n > 0 {
      RunQuiet(items, steps, n - 1);
      assert items[n - 1 := items[n - 1]] == items;
    }
  }

  /** Every send succeeds. */
  function AllSent(n: nat): (sends: seq<bool>)
    ensures |sends| == n && forall i :: 0 <= i < n ==> sends[i]
  {
    seq(n, _ => true)
  }

  /**
   * Idempotence: after a cycle that did not raise and whose attempted sends all
   * succeeded, a second cycle over the same pages sends nothing, changes nothing
   * and so writes nothing, whatever its sends would return.
   */
  lemma SecondCycleQuiet(items: seq<Item>, pages: seq<Option<Page>>, stores: seq<StoreProfile>, sends2: seq<bool>)
    requires Aligned(items, pages, sends2)
    ensures var first := Cycle(items, pages, stores, AllSent(|items|));
            !first.raised ==> Cycle(first.items, pages, stores, sends2) == CycleState(first.items, [], false, false)
  {
    if !Cycle(items, pages, stores, AllSent(|items|)).raised {
      var results := Classifications(items, pages, stores);
      var first := Cycle(items, pages, stores, AllSent(|items|));
      CycleEffect(items, pages, stores, AllSent(|items|));
      var results2 := Classifications(first.items, pages, stores);
      var steps2 := Outcomes(first.items, results2, sends2);
      forall i | 0 <= i < |items|
        ensures steps2[i] == Done(first.items[i], None, false)
      {
        ClassifyIgnoresFlag(items[i], first.items[i], pages[i], stores);
        TransitionIdempotent(items[i], results[i], sends2[i]);
      }
      RunQuiet(first.items, steps2, |items|);
    }
  }

  /**
   * The body of the loop for one item: the state-machine branch `Decide` picks,
   * the message it sends (if any), the flag it writes and whether it raises.
   */
  method Visit(product: Item, result: Option<Result>, sendOk: bool)
    returns (next: Item, attempt: Option<string>, changed: bool, raised: bool)
    ensures raised <==> Transition(product, result, sendOk).Raised?
    ensures !raised ==> Transition(product, result, sendOk) == Done(next, attempt, changed)
  {
    next, attempt, changed, raised := product, None, false, false;
    match Decide(result, IsNotified(product)) {
      case NoChange =>
      case ClearFlag =>
        next, changed := product.(notified := Some(false)), true;
      case AttemptSend =>
        if product.title.None? {
          raised := true;
          return;
        }
        attempt := Some(NotificationText(product.title.value, product.url));
        if sendOk {
          next, changed := product.(notified := Some(true)), true;
        }
    }
  }

  /** `steps` holds the outcome of every iteration over `items`, each known once its item is classified. */
  predicate Planned(steps: seq<StepResult>, items: seq<Item>, pages: seq<Option<Page>>, stores: seq<StoreProfile>, sends: seq<bool>) {
    Aligned(items, pages, sends) && |steps| == |items|
    && forall j {:trigger Classify(items[j], pages[j], stores)} :: 0 <= j < |items| ==>
         steps[j] == Transition(items[j], Classify(items[j], pages[j], stores), sends[j])
  }

  /** The outcomes a cycle over `items` is made of. */
  lemma CyclePlan(items: seq<Item>, pages: seq<Option<Page>>, stores: seq<StoreProfile>, sends: seq<bool>)
    returns (steps: seq<StepResult>)
    requires Aligned(items, pages, sends)
    ensures Planned(steps, items, pages, stores, sends)
  {
    steps := Outcomes(items, Classifications(items, pages, stores), sends);
  }

  /** Running the planned outcomes over the whole list is the cycle. */
  lemma CyclePlanRun(steps: seq<StepResult>, items: seq<Item>, pages: seq<Option<Page>>, stores: seq<StoreProfile>, sends: seq<bool>)
    requires Planned(steps, items, pages, stores, sends)
    ensures Run(items, steps, |items|) == Cycle(items, pages, stores, sends)
  {
    var plan := Outcomes(items, Classifications(items, pages, stores), sends);
    assert steps == plan;
  }

  /** One item's iteration: classify its page, then `Visit`. */
  method VisitAt(i: nat, product: Item, pages: seq<Option<Page>>, stores: seq<StoreProfile>, sends: seq<bool>,
                 ghost items: seq<Item>, ghost steps: seq<StepResult>)
    returns (next: Item, attempt: Option<string>, changed: bool, raised: bool)
    requires Planned(steps, items, pages, stores, sends) && i < |items| && product == items[i]
    ensures raised <==> steps[i].Raised?
    ensures !raised ==> steps[i] == Done(next, attempt, changed)
    ensures !raised && !changed ==> next == product
  {
    var result := Classify(product, pages[i], stores);
    next, attempt, changed, raised := Visit(product, result, sends[i]);
  }

  /**
   * The polling process's state: the product list `main` loads once and each cycle
   * updates in place, and what products.json holds.
   */
  class Tracker {
    var products: seq<Item>
    var saved: seq<Item>

    constructor (loaded: seq<Item>)
      ensures products == loaded && saved == loaded
    {
      products := loaded;
      saved := loaded;
    }

    /**
     * `check_products_once` after the pages are fetched: the list becomes what the
     * cycle makes of it, the sends are attempted in order, and the file is
     * rewritten with the whole list only when some flag changed and nothing raised.
     */
    method CheckOnce(stores: seq<StoreProfile>, pages: seq<Option<Page>>, sends: seq<bool>)
      returns (attempts: seq<string>, raised: bool)
      requires Aligned(products, pages, sends)
      modifies this
      ensures var s := Cycle(old(products), pages, stores, sends);
              products == s.items && attempts == s.attempts && raised == s.raised
      ensures var s := Cycle(old(products), pages, stores, sends);
              saved == if !s.raised && s.updated then s.items else old(saved)
    {
      ghost var start := products;
      ghost var steps := CyclePlan(start, pages, stores, sends);
      var updated := false;
      attempts, raised := [], false;
      var i := 0;
      while i < |products|
        invariant i <= |products| == |start|
        invariant Run(start, steps, i) == CycleState(products, attempts, updated, false)
        invariant forall j :: i <= j < |start| ==> products[j] == start[j]
        invariant saved == old(saved)
      {
        var product := products[i];
        var next, attempt, changed, stop := VisitAt(i, product, pages, stores, sends, start, steps);
        if stop {
          raised := true;
          RunRaises(start, steps, i);
          CyclePlanRun(steps, start, pages, stores, sends);
          return;
        }
        StepTo(start, steps, i, products, attempts, updated, next, attempt, changed);
        if attempt.Some? {
          attempts := attempts + [attempt.value];
        }
        if changed {
          products := products[i := next];
          updated := true;
        }
        i := i + 1;
      }
      CyclePlanRun(steps, start, pages, stores, sends);
      if updated {
        saved := products;
      }
    }
  }
}
