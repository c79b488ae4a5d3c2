# DelphiOracle in Dafny

This is a model of the DelphiOracle EOSIO contract (`contract/oracle.cpp`). The contract is a
single-asset price oracle. Approved oracles and active block producers write a price at most
once every 55 seconds. The contract keeps the last 21 datapoints in a sliding window. Once the
window is full, every new datapoint carries a trimmed average of the window.

The model has one module per part of the contract:

- `Constants` (`constants.dfy`): `datapoints_count`, `val_min`, `val_max`, `one_minute`, and the
  64-bit range `U64` of every table column.
- `Averaging` (`averaging.dfy`): the value-ordered index and the trimmed mean.
  - The index is an ascending sort of the window's values. `SortedUnique` shows that no other
    ascending order of the same values exists.
  - The summing loop is a method proved against the slice `[6..15]` of that sort.
- `Window` (`window.dfy`): the `eosusd` table and what `update_eosusd_oracle` does to it.
  - The table is a sequence in primary-key order: newest record first, oldest last.
  - `Admit` is the table after one accepted write. `Replay` is the table after a run of
    writes into an empty table.
- `RateLimit` (`rate_limit.dfy`): the `eosusdstats` table, a map from owner to record, and
  the cooldown check of `check_last_push`.
- `Authorisation` (`authorisation.dfy`): the rule of `check_oracle`. An account may write if
  it is in the oracle table or in the 21-slot producer array, which starts zero-filled.
- `Contract` (`oracle.dfy`): the class `DelphiOracle`.
  - It holds the three tables as fields.
  - Each helper and each action (`write`, `setoracles`, `clear`) is a method. Its contract
    gives the new tables in terms of the old ones.
  - A failed `eosio_assert` or `require_auth` aborts the transaction in EOSIO. In the model
    it returns a non-`Accepted` `Status` and leaves every table unchanged.

Inputs from the host:
- `require_auth` is a boolean input, `ownerSigned` or `adminSigned`.
- `current_time()` is the input `now`.
- The producers reported by `get_active_producers` are the input `active`, with at most 21
  entries.

What `contract/oracle.cpp` does, as the model states it:
- The trimmed sum starts from `begin()` of the value index, advances five times, then
  advances once before each of nine reads. It adds up the values at sorted positions 6 to 14
  (0-based) of the 21, leaving out the 6 lowest and the 6 highest, as the comment "skip
  first 6 values" says.
- `write` checks the owner's authority, then the value's range, then whether the owner is an
  oracle or a producer, then the cooldown.
- The trimmed average is computed only on the eviction path. Write 21 after an empty table
  still publishes its own value; write 22 is the first to publish a trimmed mean
  (`ReplayAverage`).
- A new record gets id `UINT64_MAX` whenever the table is empty, after `clear` as well.
- The comment above `check_last_push` speaks of "every 60 seconds", and so does its error
  message, but the cooldown `one_minute` is 55 seconds. The model uses 55 seconds.

## Model

| member | source | states |
|---|---|---|
| `Averaging.Insert` | contract/oracle.cpp:77-79 | Adding a value to the by-value index keeps it ascending. It adds exactly that value to the index's multiset. |
| `Averaging.SortAsc` | contract/oracle.cpp:171 | The by-value index lists the window's values in ascending order, as a permutation of them. |
| `Averaging.SortedUnique` | contract/oracle.cpp:171 | Two ascending sequences with the same multiset of values are equal. So the order of records with equal values cannot change what the index yields. |
| `Averaging.SumTrimmed` | contract/oracle.cpp:173-185 | The iterator loop (skip five, then advance before each of nine reads) adds up exactly the sorted values at positions 6 to 14. |
| `Averaging.TrimmedMean` | contract/oracle.cpp:171-189 | Defines the average written on the eviction path: the integer mean of the values at sorted positions 6 to 14 of the 21 values. Its properties are the lemmas below. |
| `Averaging.TrimmedMeanBounds` | contract/oracle.cpp:171-189 | The trimmed mean lies between the 7th and the 15th smallest value. So it stays within any range that holds all 21 values. |
| `Averaging.TrimmedMeanPermutation` | contract/oracle.cpp:171-189 | The trimmed mean depends only on the multiset of the 21 values. |
| `Averaging.TrimmedMeanOfSorted` | contract/oracle.cpp:173-189 | For any ascending arrangement of the 21 values, the trimmed mean is the integer mean of its positions 6 to 14. |
| `Averaging.HighOutlierIgnored` | contract/oracle.cpp:173-189 | A value at least as large as the other 20 does not affect the trimmed mean. |
| `Averaging.LowOutlierIgnored` | contract/oracle.cpp:173-189 | A value at most as small as the other 20 does not affect the trimmed mean. |
| `Window.Admit` | contract/oracle.cpp:137-225 | Defines the window after `update_eosusd_oracle`. An empty table gets one record with id `UINT64_MAX` and average equal to the value. Below 21 records, a record with the smallest id minus 1 and average equal to the value goes in front. At 21, the last record is dropped and the new first record carries the trimmed mean. Its ensures give the new size, min(old size + 1, 21), and the new record's id, owner, value and time. |
| `Window.IdsAscending` | contract/oracle.cpp:150-151 | In a valid window the ids are distinct and ascend in primary-key order. The newest record has the smallest id. |
| `Window.AdmitValid` | contract/oracle.cpp:137-225 | An accepted write preserves the invariant: at most 21 records, contiguous ids, values and averages in range. The new record gets the smallest id minus 1, or `UINT64_MAX` in an empty table. |
| `Window.AdmitSize` | contract/oracle.cpp:141-160 | After a write the window holds min(old size + 1, 21) records. |
| `Window.AdmitEvictsOldest` | contract/oracle.cpp:154-160 | Below 21 records every record is kept unchanged. At 21, exactly one record is removed: the last one, whose id is the largest. The other records are kept unchanged. |
| `Window.AdmitEvicting` | contract/oracle.cpp:154-190 | At capacity, the admitted window is the old one without its last record, with a new first record in front. That record's average is the trimmed mean of the 21 values after the insert, and it lies in [100, 100000000]. |
| `Window.AdmitNewRecord` | contract/oracle.cpp:161-221 | The new record carries the owner, value and time of the write. Below capacity its average is its own value. At capacity its average is the trimmed mean of the window after the insert. |
| `Window.AdmitAverageFromValues` | contract/oracle.cpp:171-189 | At capacity, the new average is the trimmed mean of the 20 surviving values plus the new value, taken in any order. |
| `Window.Replay` | contract/oracle.cpp:137-225 | After n accepted writes into an empty table, the window is valid and holds min(n, 21) records. The newest record's id is `UINT64_MAX - (n - 1)`. |
| `Window.ReplayAverage` | contract/oracle.cpp:193-221 | Writes 1 to 21 after an empty table publish their own value as the average. Every write from the 22nd on publishes the trimmed mean. |
| `RateLimit.CooledDown` | contract/oracle.cpp:111-117 | Defines when an account may write at `now`: it has no stats record, or its last timestamp plus 55 s is at most `now`. |
| `RateLimit.Recorded` | contract/oracle.cpp:119-130 | Defines the stats table after an accepted write. Its ensures say the owner's record gets timestamp `now`. Its count becomes 0 on a first write and count + 1 otherwise. Every other owner's record is unchanged. |
| `RateLimit.RecordedValid` | contract/oracle.cpp:107-133 | Recording a write keeps the stats table valid. It adds the owner's key if missing and leaves every other owner's record unchanged. |
| `RateLimit.CountBounded` | contract/oracle.cpp:119-122 | The invariant `count * one_minute <= timestamp` bounds the write counter, so `count++` cannot overflow. |
| `RateLimit.CooldownScenario` | contract/oracle.cpp:117-130 | A first write at t records (t, 0). A write at t + 10 s is refused. A write at t + 55 s is accepted and records (t + 55 s, 1). |
| `Authorisation.ProducerSlots` | contract/oracle.cpp:92-93 | Defines the producer array as `check_oracle` reads it: the active producers, then zeros up to 21 slots. Its ensures give the length, 21. |
| `Authorisation.Authorised` | contract/oracle.cpp:82-102 | Defines who may write: an account in the oracle table or in the 21 producer slots. |
| `Authorisation.AuthorisedNonZero` | contract/oracle.cpp:82-102 | An account other than 0 is authorised exactly when it is an approved oracle or an active producer. |
| `Authorisation.ZeroAuthorisedWithFewProducers` | contract/oracle.cpp:92-99 | With fewer than 21 active producers, the zero-filled slots authorise account 0. |
| `Contract.DelphiOracle.constructor` | contract/oracle.cpp:36 | Stands for a freshly deployed contract account: three empty tables that satisfy the invariant. The C++ constructor runs on every action and does not touch the tables; only a new account starts empty. |
| `Contract.DelphiOracle.CheckOracle` | contract/oracle.cpp:82-104 | The two scans return true exactly when the owner is in the oracle table or in the zero-filled producer array. |
| `Contract.DelphiOracle.CheckLastPush` | contract/oracle.cpp:107-134 | The call succeeds exactly when the owner has no record or its last write is at least 55 s old. On success the record becomes (now, 0) for a new owner, or (now, count + 1). On failure nothing changes. |
| `Contract.DelphiOracle.UpdateEosusdOracle` | contract/oracle.cpp:137-225 | The window becomes `Admit` of the old window, and the invariant is kept. The stats and oracle tables are unchanged. |
| `Contract.DelphiOracle.Write` | contract/oracle.cpp:229-239 | Checks run in this order: authority, range [100, 100000000], oracle or producer, cooldown. The first check that fails sets the status, and then no table changes. An accepted write updates stats and window as specified and leaves the oracle table unchanged. |
| `Contract.DelphiOracle.SetOracles` | contract/oracle.cpp:243-261 | With the admin's authority, the oracle table becomes exactly the given list. The window and stats are unchanged. |
| `Contract.DelphiOracle.Clear` | contract/oracle.cpp:265-289 | With the admin's authority, all three tables become empty. Without it, nothing changes. |
| `Contract.ClearThenWrite` | contract/oracle.cpp:265-289 | Two `clear` actions in a row both succeed. A write by an active producer after them is accepted. It gets id `UINT64_MAX` and average equal to its value, and its stats record has count 0. Idempotence of `clear` follows from `Clear`'s own ensures, whose emptied state does not depend on the state before. |
| `Authorisation.ActiveProducerAuthorised` | contract/oracle.cpp:96-99 | Every active producer passes the authorisation check, whatever the oracle table holds. |
| `Contract.WriteScenario` | contract/oracle.cpp:229-239 | On a new contract with one approved oracle, values 99 and 100000001 are refused as out of range. A write at t is accepted, one at t + 10 s is refused, and one at t + 55 s is accepted. |

## Left out

- The `multi_index` storage engine: RAM payer, serialisation, the `timestamp` secondary index
  (never read by the logic), and the tie order of the `value` index. `SortedUnique` shows
  that tie order does not change the sorted values.
- `Contract.DelphiOracle.SetOracles`: the oracle table keeps rows in the order they were
  added, not in primary-key order. The only reader, `check_oracle`, tests membership, which
  does not depend on order.
- `Contract.DelphiOracle.SetOracles`: requires a list without duplicate names. A duplicate
  primary key in `emplace` aborts inside the storage library, which is not part of this
  model.
- `Contract.DelphiOracle.Clear`: empties the stats table one arbitrary key at a time, where
  the contract erases from the largest key down. The result is the same empty table.
- `Contract.DelphiOracle.Write`: does not model 64-bit wrap-around of
  `timestamp + one_minute`. It requires `now <= UINT64_MAX - one_minute`, and the stats
  invariant keeps every stored timestamp below that bound.
- `Contract.DelphiOracle.CheckLastPush`: the same bound on `now` excludes the wrap-around of
  `last.timestamp + one_minute`.
- `Window.Admit`: does not model the wrap-around of `latest->id - 1` when the smallest id
  is 0. It requires `CanAdmit`: the table is empty or its smallest id is positive. That case
  needs 2^64 writes without a `clear`.
- `Contract.DelphiOracle.UpdateEosusdOracle`: on the eviction path, `emplace` leaves
  `average` unset until the `modify` that follows. The model writes 0 there and then
  overwrites it.
- `require_auth` is host authentication. The booleans `ownerSigned` and `adminSigned` stand
  for it, and `adminSigned` means the authority of `eostitanprod`.
- `get_active_producers` is a host call. Its result is the input `active`, and its byte count
  (unused by the contract) is not modelled.
- `current_time()` is the input `now`, the same value for the whole action.
- The transaction rollback itself: the model returns an error status and changes nothing.
- The ABI dispatch (`EOSIO_ABI`).
