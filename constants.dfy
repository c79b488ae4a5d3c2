/**
 Constants and scalar types of the DelphiOracle contract (contract/oracle.cpp:22-32).
 Every table column of the contract is a `uint64_t`; `U64` is that range over the
 unbounded integers, so that any place the contract could wrap around shows up as a
 proof obligation instead.
 */
module Constants {

  const UINT64_MAX: int := 0xFFFF_FFFF_FFFF_FFFF

  type U64 = x: int | 0 <= x <= UINT64_MAX

  /** An EOSIO `account_name` is a 64-bit integer. */
  type Account = U64

  /** Number of datapoints the sliding window holds. */
  const DATAPOINTS_COUNT: nat := 21

  /** Smallest accepted value: 0.01$ in hundredths of a cent. */
  const VAL_MIN: nat := 100

  /** Largest accepted value: 10,000$ in hundredths of a cent. */
  const VAL_MAX: nat := 100000000

  /** The cooldown between two writes of one account, in microseconds (55 seconds). */
  const ONE_MINUTE: nat := 1000000 * 55

  /** Number of slots `get_active_producers` may fill. */
  const PRODUCER_SLOTS: nat := 21

  /**
   The latest clock reading for which `timestamp + ONE_MINUTE` still fits in 64 bits;
   the model only admits clock readings up to this bound.
   */
  const NOW_MAX: int := UINT64_MAX - ONE_MINUTE

  predicate InRange(value: int)
  {
    VAL_MIN <= value <= VAL_MAX
  }
}
