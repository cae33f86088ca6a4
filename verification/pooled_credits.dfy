/**
 * The standalone credits page: a single pooled counter, persisted as text.
 * Using a credit costs 1, buying adds 5, a premium report costs 2. The DOM
 * updates and messages are left out; each click handler becomes a pure
 * transition on the counter.
 */
module PooledCredits {
  import opened Common
  import opened JsNumber

  /** The counter value used when the stored one is missing, unreadable or zero. */
  const Fallback: int := 3
  const UseCost: int := 1
  const BuyAmount: int := 5
  const PremiumCost: int := 2

  /**
   * The counter at page load: the stored text read with `parseInt`, except that
   * `NaN` and `0` are both falsy and give way to the fallback of 3. A missing
   * entry is `null`, which `parseInt` reads as the text "null".
   */
  function InitCredits(stored: Option<string>): (c: int)
    ensures c != 0
    ensures stored.None? ==> c == Fallback
    ensures stored.Some? && ParseInt(stored.value).None? ==> c == Fallback
    ensures stored.Some? && ParseInt(stored.value) == Some(0) ==> c == Fallback
    ensures stored.Some? && ParseInt(stored.value).Some? && ParseInt(stored.value).value != 0
            ==> c == ParseInt(stored.value).value
  {
    ParseIntNoDigit("null");
    match ParseInt(stored.GetOr("null"))
    case None => Fallback
    case Some(n) => if n == 0 then Fallback else n
  }

  /** What the page writes back after every change: the counter as decimal text. */
  function Persist(credits: int): (text: string)
    ensures ParseInt(text) == Some(credits)
  {
    ParseIntToString(credits);
    ToString(credits)
  }

  /** "Use a credit": spends one credit if there is one, otherwise nothing changes. */
  function Use(credits: int): (r: int)
    ensures credits > 0 <==> r == credits - UseCost
    ensures credits <= 0 <==> r == credits
  {
    if credits > 0 then credits - UseCost else credits
  }

  /** "Buy credits": always adds five. */
  function Buy(credits: int): (r: int)
    ensures r - credits == BuyAmount
  {
    credits + BuyAmount
  }

  /** "Unlock premium": spends two credits if there are at least two, otherwise nothing changes. */
  function Premium(credits: int): (r: int)
    ensures credits >= PremiumCost <==> r == credits - PremiumCost
    ensures credits < PremiumCost <==> r == credits
  {
    if credits >= PremiumCost then credits - PremiumCost else credits
  }

  /** A click on one of the three buttons. */
  datatype Click = UseClick | BuyClick | PremiumClick

  function Apply(credits: int, click: Click): int {
    match click
    case UseClick => Use(credits)
    case BuyClick => Buy(credits)
    case PremiumClick => Premium(credits)
  }

  /** The counter after a sequence of clicks, first click first. */
  function Run(credits: int, clicks: seq<Click>): int
    decreases |clicks|
  {
    if clicks == [] then credits else Run(Apply(credits, clicks[0]), clicks[1..])
  }

  /** The number of times `click` occurs in `clicks`. */
  function Count(clicks: seq<Click>, click: Click): nat {
    if clicks == [] then 0 else (if clicks[0] == click then 1 else 0) + Count(clicks[1..], click)
  }

  /** No sequence of clicks takes a non-negative counter below zero. */
  lemma {:induction false} RunKeepsNonNegative(credits: int, clicks: seq<Click>)
    requires credits >= 0
    ensures Run(credits, clicks) >= 0
    decreases |clicks|
  {
    if clicks != [] {
      RunKeepsNonNegative(Apply(credits, clicks[0]), clicks[1..]);
    }
  }

  /**
   * Conservation: the counter never ends above its start plus five per purchase,
   * and never below its start minus one per use and two per premium report.
   */
  lemma {:induction false} RunBounds(credits: int, clicks: seq<Click>)
    ensures Run(credits, clicks) <= credits + BuyAmount * Count(clicks, BuyClick)
    ensures Run(credits, clicks)
         >= credits - UseCost * Count(clicks, UseClick) - PremiumCost * Count(clicks, PremiumClick)
    decreases |clicks|
  {
    if clicks != [] {
      RunBounds(Apply(credits, clicks[0]), clicks[1..]);
    }
  }

  /**
   * Reloading the page restores the persisted counter, except that a counter
   * persisted at 0 comes back as 3: spending the last credit and reloading
   * grants three again.
   */
  lemma ReloadRestores(credits: int)
    ensures InitCredits(Some(Persist(credits))) == (if credits == 0 then Fallback else credits)
  {
    var text := Persist(credits);
    assert ParseInt(text) == Some(credits);
  }

  /** A first visit, an unreadable value and a stored zero all start at 3. */
  lemma InitFallbacks()
    ensures InitCredits(None) == 3
    ensures InitCredits(Some("")) == 3
    ensures InitCredits(Some("abc")) == 3
    ensures InitCredits(Some("0")) == 3
  {
    ParseIntNoDigit("abc");
    ReloadRestores(0);
    assert Persist(0) == "0";
  }
}
