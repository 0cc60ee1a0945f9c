module Directions {
  /** The way a market is going, and the side of a trade that goes with it. */
  datatype Direction = Long | Short
}
