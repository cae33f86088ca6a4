/**
 * The client-side credit store: a free balance and a paid balance, with
 * "consume one" burning free credits before paid ones and a reset to the
 * starting grant.
 */
module CreditStore {
  import opened CreditsService

  /** The balance the store is created with: three free credits, no paid ones. */
  const Initial: Credits := Credits(3, 0)

  /** Spends one credit, free before paid; with nothing to spend it is a no-op. */
  function ConsumeOne(c: Credits): (r: Credits)
    ensures c.freeLeft > 0 ==> r.freeLeft == c.freeLeft - 1 && r.paidLeft == c.paidLeft
    ensures c.freeLeft <= 0 && c.paidLeft > 0 ==> r.freeLeft == c.freeLeft && r.paidLeft == c.paidLeft - 1
    ensures c.freeLeft <= 0 && c.paidLeft <= 0 ==> r == c
    // paid credits are only ever spent once no free credit is left
    ensures r.paidLeft != c.paidLeft ==> c.freeLeft <= 0
    ensures NonNegative(c) ==> NonNegative(r)
    ensures NonNegative(c) ==> Total(r) == (if Total(c) > 0 then Total(c) - 1 else Total(c))
  {
    if c.freeLeft > 0 then c.(freeLeft := c.freeLeft - 1)
    else if c.paidLeft > 0 then c.(paidLeft := c.paidLeft - 1)
    else c
  }

  /** Back to the starting grant, whatever the balance was. */
  function ResetCredits(c: Credits): (r: Credits)
    ensures r.freeLeft == 3 && r.paidLeft == 0
  {
    Initial
  }

  /** An action on the store. */
  datatype Action = Consume | Reset

  function ApplyAction(c: Credits, a: Action): Credits {
    match a
    case Consume => ConsumeOne(c)
    case Reset => ResetCredits(c)
  }

  /** The balance after a sequence of actions, first action first. */
  function RunActions(c: Credits, actions: seq<Action>): Credits
    decreases |actions|
  {
    if actions == [] then c else RunActions(ApplyAction(c, actions[0]), actions[1..])
  }

  /** `n` consecutive consumptions. */
  function ConsumeTimes(c: Credits, n: nat): Credits {
    if n == 0 then c else ConsumeOne(ConsumeTimes(c, n - 1))
  }

  lemma ResetIdempotent(c: Credits)
    ensures ResetCredits(ResetCredits(c)) == ResetCredits(c)
    ensures ResetCredits(c) == Initial
  {
  }

  /** No sequence of consumptions and resets makes a non-negative balance negative. */
  lemma {:induction false} RunKeepsNonNegative(c: Credits, actions: seq<Action>)
    requires NonNegative(c)
    ensures NonNegative(RunActions(c, actions))
    decreases |actions|
  {
    if actions != [] {
      RunKeepsNonNegative(ApplyAction(c, actions[0]), actions[1..]);
    }
  }

  /**
   * Free credits are exhausted first: up to `freeLeft` consumptions take only
   * free credits, and after `n` consumptions the total is `Total - n`, floored at 0.
   */
  lemma {:induction false} ConsumeTimesSpendsFreeFirst(c: Credits, n: nat)
    requires NonNegative(c)
    ensures NonNegative(ConsumeTimes(c, n))
    ensures n <= c.freeLeft ==> ConsumeTimes(c, n) == Credits(c.freeLeft - n, c.paidLeft)
    ensures n >= c.freeLeft ==> ConsumeTimes(c, n).freeLeft == 0
    ensures Total(ConsumeTimes(c, n)) == (if n <= Total(c) then Total(c) - n else 0)
  {
    if n > 0 {
      ConsumeTimesSpendsFreeFirst(c, n - 1);
    }
  }

  /** From the initial balance, three consumptions reach (0, 0) and a fourth changes nothing. */
  lemma InitialScenario()
    ensures ConsumeTimes(Initial, 3) == Credits(0, 0)
    ensures ConsumeTimes(Initial, 4) == Credits(0, 0)
    ensures ConsumeOne(Credits(0, 10)) == Credits(0, 9)
  {
  }

  /** What the results page decides when asked to generate matches. */
  datatype GenerateDecision = Generate(after: Credits) | GoToCredits

  /**
   * The results page spends one credit and generates matches when the total
   * balance is positive, and sends the user to the credits page otherwise.
   */
  function HandleGenerateMatches(c: Credits): (d: GenerateDecision)
    ensures d.Generate? <==> Total(c) > 0
    ensures d.Generate? && NonNegative(c) ==> Total(d.after) == Total(c) - 1 && NonNegative(d.after)
    // the credit spent is chosen as `consumeOne` chooses it: free before paid
    ensures d.Generate? && c.freeLeft > 0 ==> d.after == Credits(c.freeLeft - 1, c.paidLeft)
    ensures d.Generate? && c.freeLeft <= 0 ==> d.after == Credits(c.freeLeft, c.paidLeft - 1)
  {
    if Total(c) > 0 then Generate(ConsumeOne(c)) else GoToCredits
  }
}
