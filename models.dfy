/** Record types shared by the detector and the orchestrator: the quote a
    sportsbook publishes for one game, the opportunity the detector emits,
    and the two failure-carrying wrappers the rest of the model uses. */
module Models {

  /** The closed set of supported sportsbooks. */
  datatype Sportsbook = DRAFTKINGS | BETMGM

  /** The default profit threshold (in percent) of the bot's settings. */
  const DefaultMinProfitPercentage: real := 2.5

  /** One sportsbook's moneyline for one game; prices are American odds. */
  datatype GameOdds = GameOdds(
    sportsbook: Sportsbook,
    team1: string,
    team2: string,
    team1Url: string,
    team2Url: string,
    team1Odds: int,
    team2Odds: int)

  /** A detected two-leg arbitrage: which side to back at which book, at
      which price, with which stake, and the guaranteed profit. */
  datatype ArbitrageOpportunity = ArbitrageOpportunity(
    team1: string,
    team2: string,
    book1: Sportsbook,
    book2: Sportsbook,
    book1Url: string,
    book2Url: string,
    book1Odds: int,
    book2Odds: int,
    profitPercentage: real,
    bet1Amount: real,
    bet2Amount: real,
    totalProfit: real)

  datatype Option<+T> = None | Some(value: T)

  /** The Python exceptions the core can raise out of its operations. */
  datatype Exception = ZeroDivisionError | ValueError

  /** A value, or the exception that escaped instead of it. */
  datatype Result<+T> = Ok(value: T) | Raised(exception: Exception)
}
