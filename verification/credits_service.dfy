/**
 * The in-memory mock credit ledger of `creditsService`: one module-level balance
 * that the three mock calls read or mutate, each handing back a copy of the
 * balance after the call. The mutable module variable becomes an explicit
 * ledger value threaded through pure transitions.
 */
module CreditsService {
  import opened Common

  /** The balance of one account: free credits and paid credits. */
  datatype Credits = Credits(freeLeft: int, paidLeft: int)

  /** Both balances are non-negative. */
  predicate NonNegative(c: Credits) {
    c.freeLeft >= 0 && c.paidLeft >= 0
  }

  function Total(c: Credits): int {
    c.freeLeft + c.paidLeft
  }

  /** The effect of one mock call: the module-level ledger after it, and the copy it returns. */
  datatype Step = Step(ledger: Credits, returned: Credits)

  /** The value the module-level ledger starts with. */
  const MockInitial: Credits := Credits(3, 0)

  /** The pack size `addPaidCreditsMock` uses when called without an argument. */
  const DefaultPack: int := 5

  /** Reading the balance returns a copy of it and leaves the ledger as it was. */
  function GetCreditsMock(ledger: Credits): (s: Step)
    ensures s.ledger == ledger
    ensures s.returned == ledger
  {
    Step(ledger, ledger)
  }

  /** Burns one free credit when there is one; paid credits are never touched. */
  function ConsumeFreeCreditMock(ledger: Credits): (s: Step)
    ensures s.returned == s.ledger
    ensures s.ledger.paidLeft == ledger.paidLeft
    ensures ledger.freeLeft > 0 <==> s.ledger.freeLeft == ledger.freeLeft - 1
    ensures ledger.freeLeft <= 0 <==> s.ledger == ledger
    ensures NonNegative(ledger) ==> NonNegative(s.ledger)
  {
    var after := if ledger.freeLeft > 0 then ledger.(freeLeft := ledger.freeLeft - 1) else ledger;
    Step(after, after)
  }

  /**
   * Tops up the paid balance by `n` (by `DefaultPack` when no amount is given).
   * There is no guard against a negative amount.
   */
  function AddPaidCreditsMock(ledger: Credits, n: Option<int>): (s: Step)
    ensures s.returned == s.ledger
    ensures s.ledger.freeLeft == ledger.freeLeft
    ensures s.ledger.paidLeft == ledger.paidLeft + n.GetOr(DefaultPack)
    ensures NonNegative(ledger) && n.GetOr(DefaultPack) >= 0 ==> NonNegative(s.ledger)
  {
    var after := ledger.(paidLeft := ledger.paidLeft + n.GetOr(DefaultPack));
    Step(after, after)
  }

  /** One call into the mock ledger. */
  datatype Call = Get | ConsumeFree | AddPaid(n: Option<int>)

  function Apply(ledger: Credits, call: Call): Step {
    match call
    case Get => GetCreditsMock(ledger)
    case ConsumeFree => ConsumeFreeCreditMock(ledger)
    case AddPaid(n) => AddPaidCreditsMock(ledger, n)
  }

  /** The ledger after a sequence of calls, first call first. */
  function Run(ledger: Credits, calls: seq<Call>): Credits
    decreases |calls|
  {
    if calls == [] then ledger else Run(Apply(ledger, calls[0]).ledger, calls[1..])
  }

  /** Every top-up in `calls` adds a non-negative amount. */
  predicate NonNegativeTopUps(calls: seq<Call>) {
    forall i :: 0 <= i < |calls| && calls[i].AddPaid? ==> calls[i].n.GetOr(DefaultPack) >= 0
  }

  /** Every call returns exactly the ledger it leaves behind. */
  lemma ReturnsPostState(ledger: Credits, call: Call)
    ensures Apply(ledger, call).returned == Apply(ledger, call).ledger
  {
  }

  /** Non-negative balances stay non-negative as long as no top-up is negative. */
  lemma {:induction false} RunKeepsNonNegative(ledger: Credits, calls: seq<Call>)
    requires NonNegative(ledger)
    requires NonNegativeTopUps(calls)
    ensures NonNegative(Run(ledger, calls))
    decreases |calls|
  {
    if calls != [] {
      assert calls[0].AddPaid? ==> calls[0].n.GetOr(DefaultPack) >= 0;
      assert NonNegativeTopUps(calls[1..]) by {
        forall i | 0 <= i < |calls[1..]| && calls[1..][i].AddPaid?
          ensures calls[1..][i].n.GetOr(DefaultPack) >= 0
        {
          assert calls[1..][i] == calls[i + 1];
        }
      }
      RunKeepsNonNegative(Apply(ledger, calls[0]).ledger, calls[1..]);
    }
  }

  /**
   * The mock has no reset and no way to grant free credits: the free balance
   * never rises, and with non-negative top-ups the paid balance never falls.
   */
  lemma {:induction false} RunIsMonotone(ledger: Credits, calls: seq<Call>)
    ensures Run(ledger, calls).freeLeft <= ledger.freeLeft
    ensures NonNegativeTopUps(calls) ==> Run(ledger, calls).paidLeft >= ledger.paidLeft
    decreases |calls|
  {
    if calls != [] {
      if NonNegativeTopUps(calls) {
        assert calls[0].AddPaid? ==> calls[0].n.GetOr(DefaultPack) >= 0;
        assert NonNegativeTopUps(calls[1..]) by {
          forall i | 0 <= i < |calls[1..]| && calls[1..][i].AddPaid?
            ensures calls[1..][i].n.GetOr(DefaultPack) >= 0
          {
            assert calls[1..][i] == calls[i + 1];
          }
        }
      }
      RunIsMonotone(Apply(ledger, calls[0]).ledger, calls[1..]);
    }
  }

  /** Once the free balance is spent, consuming again changes nothing. */
  lemma ConsumeFreeIdempotentAtZero(ledger: Credits)
    requires ledger.freeLeft == 0
    ensures ConsumeFreeCreditMock(ConsumeFreeCreditMock(ledger).ledger).ledger == ledger
  {
  }

  /** A negative amount drives the paid balance below zero: nothing in the mock prevents it. */
  lemma NegativeTopUpGoesNegative()
    ensures AddPaidCreditsMock(MockInitial, Some(-1)).ledger.paidLeft < 0
  {
  }

  /** From the initial ledger: three free credits, then a default pack of five. */
  lemma InitialScenario()
    ensures Run(MockInitial, [ConsumeFree, ConsumeFree, ConsumeFree, ConsumeFree]) == Credits(0, 0)
    ensures Run(MockInitial, [AddPaid(None), Get]) == Credits(3, 5)
    ensures Run(Credits(0, 0), [AddPaid(Some(10)), ConsumeFree]) == Credits(0, 10)
  {
  }
}
