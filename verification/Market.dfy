/** Notions shared by the market data handlers. */
module Market {

  datatype Side = Undefined | Buy | Sell

  function Invert(side: Side): Side {
    match side
    case Undefined => Undefined
    case Buy => Sell
    case Sell => Buy
  }

  /** The securities that are known and not discarded, with their display factors. */
  type Known = map<int, real>
}
