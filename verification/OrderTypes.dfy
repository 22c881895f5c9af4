/** The enumerations shared by the matching engine and the order repository. */
module OrderTypes {
  datatype Side = Buy | Sell

  datatype OrderType = Market | Limit | Stop | StopLimit | StopLoss

  datatype TimeInForce = Day | GTC | GTD | IOC | FOK
}
