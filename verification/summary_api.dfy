/**
 * The mock branch of the free-summary request: consume one free credit, read
 * the balance back, and answer with a canned compatibility blurb.
 */
module SummaryApi {
  import opened CreditsService

  /** What the request hands back: the blurb and the balance left afterwards. */
  datatype SummaryResponse = SummaryResponse(text: string, creditsLeft: Credits)

  /** The outcome of one mock request: the ledger afterwards and the response. */
  datatype SummaryCall = SummaryCall(ledger: Credits, response: SummaryResponse)

  /** The fixed text the mock answers with. */
  const MockSummaryText: string :=
    "You both value tidy spaces and clear routines. Social energy looks balanced. Communication styles are compatible \U{2014} likely smooth co-living with minor adjustments."

  /**
   * Consumes a free credit (if any), then reads the balance. The answer never
   * fails for lack of credits, and the requester and candidate identifiers do
   * not influence it.
   */
  function RequestFreeSummaryMock(ledger: Credits, myEmail: string, otherId: string): (r: SummaryCall)
    ensures r.response.creditsLeft == r.ledger
    ensures r.ledger.paidLeft == ledger.paidLeft
    ensures ledger.freeLeft > 0 <==> r.ledger.freeLeft == ledger.freeLeft - 1
    ensures ledger.freeLeft <= 0 <==> r.ledger == ledger
    ensures r.response.text == MockSummaryText && |r.response.text| > 0
  {
    var consumed := ConsumeFreeCreditMock(ledger);
    var read := GetCreditsMock(consumed.ledger);
    SummaryCall(read.ledger, SummaryResponse(MockSummaryText, read.returned))
  }

  /**
   * The request is exactly one free-credit consumption followed by a read:
   * its ledger and reported balance are what the consumption alone returns.
   */
  lemma SummaryIsOneConsumption(ledger: Credits, myEmail: string, otherId: string)
    ensures RequestFreeSummaryMock(ledger, myEmail, otherId).ledger
         == Run(ledger, [ConsumeFree, Get])
    ensures RequestFreeSummaryMock(ledger, myEmail, otherId).response.creditsLeft
         == ConsumeFreeCreditMock(ledger).returned
  {
  }

  /** `n` summary requests in a row, all for the same pair. */
  function RequestTimes(ledger: Credits, n: nat, myEmail: string, otherId: string): Credits {
    if n == 0 then ledger
    else RequestFreeSummaryMock(RequestTimes(ledger, n - 1, myEmail, otherId), myEmail, otherId).ledger
  }

  /**
   * Each request spends one free credit while there are any and nothing after;
   * paid credits are never spent by a summary.
   */
  lemma {:induction false} RequestTimesSpendsOnlyFree(ledger: Credits, n: nat, myEmail: string, otherId: string)
    requires ledger.freeLeft >= 0
    ensures RequestTimes(ledger, n, myEmail, otherId).paidLeft == ledger.paidLeft
    ensures RequestTimes(ledger, n, myEmail, otherId).freeLeft
         == (if n <= ledger.freeLeft then ledger.freeLeft - n else 0)
  {
    if n > 0 {
      RequestTimesSpendsOnlyFree(ledger, n - 1, myEmail, otherId);
    }
  }

  /** A fourth request after the initial grant is used up still answers, with (0, 0) left. */
  lemma FourthRequestStillAnswers(myEmail: string, otherId: string)
    ensures RequestTimes(MockInitial, 3, myEmail, otherId) == Credits(0, 0)
    ensures RequestFreeSummaryMock(Credits(0, 0), myEmail, otherId)
         == SummaryCall(Credits(0, 0), SummaryResponse(MockSummaryText, Credits(0, 0)))
  {
    RequestTimesSpendsOnlyFree(MockInitial, 3, myEmail, otherId);
  }
}
