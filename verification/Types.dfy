/** The enumerations and records of the position manager, as values. */
module Types {

  datatype Option<+T> = None | Some(value: T)

  type uint16 = x: int | 0 <= x < 0x1_0000

  // Identifiers are only ever compared for equality.
  type PosId = int
  type Address = int
  type ChainId = int

  datatype TokenPair = TokenPair(base: Address, quote: Address, chain: ChainId)

  datatype Direction = Long | Short

  datatype LevelType = SL | TP

  datatype LevelStatus = LevelActive | LevelTriggered | LevelCancelled | LevelSuspended

  datatype PositionState = StateActive | StatePartialClosed | StateClosed | StateCancelled {
    predicate IsTerminal() {
      this == StateClosed || this == StateCancelled
    }
  }

  /** TP on Long and SL on Short fire when the price rises to the trigger; the other two when it falls to it. */
  predicate FiresAbove(typ: LevelType, direction: Direction) {
    (typ == TP && direction == Long) || (typ == SL && direction == Short)
  }
}
