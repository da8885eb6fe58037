/**
 * The arithmetic of a buy or sell of shares recorded on a unified account
 * (`create_investment_transaction_db` and `update_investment_transaction_db`).
 */
module Investments {

  /** The cash amount a trade puts on the account: a buy costs price and fee, a sale brings in price less fee. */
  function TradeAmount(isBuy: bool, shares: real, pricePerShare: real, fee: real): (r: real)
    ensures r + SignedShares(isBuy, shares) * pricePerShare == -fee
  {
    var total := shares * pricePerShare;
    if isBuy then -(total + fee) else total - fee
  }

  /** The stored share count: positive for a buy, negative for a sale. */
  function SignedShares(isBuy: bool, shares: real): (r: real)
    ensures r == shares || r == -shares
    ensures shares > 0.0 ==> (isBuy <==> r > 0.0)
  {
    if isBuy then shares else -shares
  }

  /** The payee a trade is recorded under. */
  function TradePayee(isBuy: bool): (r: string)
    ensures r == "Buy" || r == "Sell"
    ensures r == "Buy" <==> isBuy
  {
    if isBuy then "Buy" else "Sell"
  }

  /** The verb that opens the generated notes. */
  function TradeVerb(isBuy: bool): string
  {
    if isBuy then "Bought" else "Sold"
  }

  /**
   * The notes generated for a trade: "Bought 10 shares of AAPL". `sharesText` is the
   * share count as Rust's `Display` for `f64` prints it.
   */
  function TradeNotes(isBuy: bool, sharesText: string, ticker: string): (r: string)
    ensures |r| == |TradeVerb(isBuy)| + |sharesText| + |ticker| + 12
    ensures r[..|TradeVerb(isBuy)|] == TradeVerb(isBuy)
    ensures r[|TradeVerb(isBuy)|..|TradeVerb(isBuy)| + 1 + |sharesText|] == " " + sharesText
    ensures r[|TradeVerb(isBuy)| + 1 + |sharesText|..|r| - |ticker|] == " shares of "
    ensures r[|r| - |ticker|..] == ticker
  {
    TradeVerb(isBuy) + " " + sharesText + " shares of " + ticker
  }

  /** With a non-negative price and fee, a buy never adds cash to the account. */
  lemma BuyNeverAddsCash(shares: real, pricePerShare: real, fee: real)
    requires shares >= 0.0 && pricePerShare >= 0.0 && fee >= 0.0
    ensures TradeAmount(true, shares, pricePerShare, fee) <= 0.0
    ensures TradeAmount(true, shares, pricePerShare, fee) <= TradeAmount(false, shares, pricePerShare, fee)
  {
    assert shares * pricePerShare >= 0.0;
  }

  /** Buying and then selling the same shares at the same price costs exactly the two fees. */
  lemma RoundTripCostsTwoFees(shares: real, pricePerShare: real, fee: real)
    ensures TradeAmount(true, shares, pricePerShare, fee) + TradeAmount(false, shares, pricePerShare, fee) == -2.0 * fee
    ensures SignedShares(true, shares) + SignedShares(false, shares) == 0.0
  {
  }
}
