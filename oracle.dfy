/**
 The DelphiOracle contract (contract/oracle.cpp:34-291): its three tables and the
 actions `write`, `setoracles` and `clear` with the helpers they call.

 An action that fails an `eosio_assert` or a `require_auth` aborts its transaction, and the
 host discards every table write it made. The model returns a `Status` instead and, on
 every status other than `Accepted`, leaves all three tables as they were. `require_auth`
 is a boolean input saying whether the transaction carries the named authority;
 `current_time()` is the input `now`, and the list `get_active_producers` reports is the
 input `active`.
 */
module Contract {
  import opened Constants
  import opened Averaging
  import opened Window
  import opened RateLimit
  import opened Authorisation

  datatype Status =
    | Accepted
    | MissingAuthority  // require_auth fails
    | OutOfRange        // "value outside of allowed range"
    | NotOracle         // "account is not an active producer or approved oracle"
    | TooSoon           // "can only call every 60 seconds"

  predicate NoDuplicates(s: seq<Account>)
  {
    forall i, j :: 0 <= i < j < |s| ==> s[i] != s[j]
  }

  class DelphiOracle {
    /** The `eosusd` table, in primary-key order. */
    var window: seq<Datapoint>
    /** The `eosusdstats` table. */
    var stats: map<Account, Stats>
    /** The `oracles` table, in the order its rows were added. */
    var oracles: seq<Account>

    ghost predicate Valid()
      reads this
    {
      WindowValid(window) && StatsValid(stats) && NoDuplicates(oracles)
    }

    /** A contract account whose tables are all empty. */
    constructor ()
      ensures Valid()
      ensures window == [] && stats == map[] && oracles == []
    {
      window, stats, oracles := [], map[], [];
    }

    /** check_oracle: a scan of the oracle table, then of the 21 producer slots. */
    method CheckOracle(owner: Account, active: seq<Account>) returns (ok: bool)
      requires |active| <= PRODUCER_SLOTS
      ensures ok <==> Authorised(oracles, active, owner)
    {
      var i := 0;
      while i < |oracles|
        invariant 0 <= i <= |oracles|
        invariant owner !in oracles[..i]
      {
        if oracles[i] == owner {
          return true;
        }
        i := i + 1;
      }
      assert oracles[..i] == oracles;
      // A zeroed array of 21 slots, its first |active| filled by get_active_producers.
      var producers := new Account[PRODUCER_SLOTS](k => if 0 <= k < |active| then active[k] else 0);
      assert producers[..] == ProducerSlots(active);
      for k := 0 to PRODUCER_SLOTS
        invariant owner !in producers[..k]
      {
        if producers[k] == owner {
          return true;
        }
      }
      assert producers[..PRODUCER_SLOTS] == producers[..];
      return false;
    }

    /**
     check_last_push: refuse a write within the cooldown of the owner's last one,
     otherwise record this write.
     */
    method CheckLastPush(owner: Account, now: U64) returns (ok: bool)
      requires Valid() && now <= NOW_MAX
      modifies this
      ensures Valid()
      ensures ok == CooledDown(old(stats), owner, now)
      ensures stats == if ok then Recorded(old(stats), owner, now) else old(stats)
      ensures window == old(window) && oracles == old(oracles)
    {
      if owner in stats {
        var last := stats[owner];
        if !(last.timestamp + ONE_MINUTE <= now) {
          return false;
        }
        RecordedValid(stats, owner, now);
        stats := stats[owner := last.(timestamp := now, count := last.count + 1)];
      } else {
        RecordedValid(stats, owner, now);
        stats := stats[owner := Stats(owner, now, 0)];
      }
      ok := true;
    }

    /**
     update_eosusd_oracle: put a new datapoint in front of the window, evicting the last
     one when the window is full, and give the new datapoint its average.
     */
    method UpdateEosusdOracle(owner: Account, value: U64, now: U64)
      requires Valid() && CanAdmit(window) && InRange(value)
      modifies this
      ensures Valid()
      ensures window == Admit(old(window), owner, value, now)
      ensures stats == old(stats) && oracles == old(oracles)
    {
      AdmitValid(window, owner, value, now);
      ghost var before := window;
      var size := |window|;
      if size > 0 {
        var primaryKey := window[0].id - 1;
        if size + 1 > DATAPOINTS_COUNT {
          // erase the record with the largest id
          window := window[..size - 1];
          ghost var survivors := window;
          // emplace leaves the average to the modify below
          window := [Datapoint(primaryKey, owner, value, 0, now)] + window;
          var valueSorted := SortAsc(Values(window));
          var avg := SumTrimmed(valueSorted);
          AdmitEvicting(before, owner, value, now, avg / KEPT);
          window := window[0 := window[0].(average := avg / KEPT)];
          assert window == [window[0]] + survivors;
        } else {
          window := [Datapoint(primaryKey, owner, value, value, now)] + window;
        }
      } else {
        window := [Datapoint(UINT64_MAX, owner, value, value, now)];
      }
    }

    /**
     The `write` action: the owner's authority, then the range of the value, then the
     owner's standing as oracle or producer, then the cooldown, in that order; only a
     write that passes all four changes anything.
     */
    method Write(owner: Account, value: U64, ownerSigned: bool, now: U64, active: seq<Account>)
      returns (status: Status)
      requires Valid()
      requires |active| <= PRODUCER_SLOTS && now <= NOW_MAX && CanAdmit(window)
      modifies this
      ensures Valid()
      ensures !ownerSigned ==> status == MissingAuthority
      ensures ownerSigned && !InRange(value) ==> status == OutOfRange
      ensures ownerSigned && InRange(value) && !Authorised(old(oracles), active, owner) ==>
        status == NotOracle
      ensures (ownerSigned && InRange(value) && Authorised(old(oracles), active, owner)
        && !CooledDown(old(stats), owner, now)) ==> status == TooSoon
      ensures (ownerSigned && InRange(value) && Authorised(old(oracles), active, owner)
        && CooledDown(old(stats), owner, now)) ==> status == Accepted
      ensures status != Accepted ==>
        window == old(window) && stats == old(stats) && oracles == old(oracles)
      ensures status == Accepted ==>
        && InRange(value) && CooledDown(old(stats), owner, now)
        && window == Admit(old(window), owner, value, now)
        && stats == Recorded(old(stats), owner, now)
        && oracles == old(oracles)
    {
      if !ownerSigned {
        return MissingAuthority;
      }
      if !(value >= VAL_MIN && value <= VAL_MAX) {
        return OutOfRange;
      }
      var isOracle := CheckOracle(owner, active);
      if !isOracle {
        return NotOracle;
      }
      var pushed := CheckLastPush(owner, now);
      if !pushed {
        return TooSoon;
      }
      UpdateEosusdOracle(owner, value, now);
      status := Accepted;
    }

    /** The `setoracles` action: replace the oracle table with the given list. */
    method SetOracles(list: seq<Account>, adminSigned: bool) returns (status: Status)
      requires Valid() && NoDuplicates(list)
      modifies this
      ensures Valid()
      ensures status == if adminSigned then Accepted else MissingAuthority
      ensures oracles == if adminSigned then list else old(oracles)
      ensures window == old(window) && stats == old(stats)
    {
      if !adminSigned {
        return MissingAuthority;
      }
      while oracles != []
        invariant Valid()
        invariant window == old(window) && stats == old(stats)
      {
        oracles := oracles[..|oracles| - 1];
      }
      for i := 0 to |list|
        invariant oracles == list[..i]
        invariant window == old(window) && stats == old(stats)
      {
        oracles := oracles + [list[i]];
      }
      assert list[..|list|] == list;
      status := Accepted;
    }

    /** The `clear` action: empty all three tables. */
    method Clear(adminSigned: bool) returns (status: Status)
      requires Valid()
      modifies this
      ensures Valid()
      ensures status == if adminSigned then Accepted else MissingAuthority
      ensures adminSigned ==> window == [] && stats == map[] && oracles == []
      ensures !adminSigned ==>
        window == old(window) && stats == old(stats) && oracles == old(oracles)
    {
      if !adminSigned {
        return MissingAuthority;
      }
      while stats != map[]
        invariant Valid()
        invariant window == old(window) && oracles == old(oracles)
        decreases |stats|
      {
        var o :| o in stats;
        stats := stats - {o};
      }
      while window != []
        invariant Valid()
        invariant stats == map[] && oracles == old(oracles)
      {
        window := window[..|window| - 1];
      }
      while oracles != []
        invariant Valid()
        invariant stats == map[] && window == []
      {
        oracles := oracles[..|oracles| - 1];
      }
      status := Accepted;
    }
  }

  /**
   Two `clear` actions in a row, then a write by an active producer: both clears succeed,
   and the write starts a new window with id UINT64_MAX, its own value as average, and a
   stats record with count 0. After `clear` the oracle table is empty, so only an active
   producer can write.
   */
  method ClearThenWrite(c: DelphiOracle, owner: Account, value: U64, now: U64, active: seq<Account>)
    returns (first: Status, second: Status, written: Status)
    requires c.Valid() && |active| <= PRODUCER_SLOTS && now <= NOW_MAX
    requires owner in active && InRange(value)
    modifies c
    ensures first == Accepted && second == Accepted && written == Accepted
    ensures c.window == [Datapoint(UINT64_MAX, owner, value, value, now)]
    ensures c.stats == map[owner := Stats(owner, now, 0)]
    ensures c.oracles == []
  {
    first := c.Clear(true);
    second := c.Clear(true);
    ActiveProducerAuthorised(c.oracles, active, owner);
    written := c.Write(owner, value, true, now, active);
  }

  /**
   An approved oracle on a fresh contract: out-of-range values are refused, the first write
   is accepted, a write 10 seconds later is refused, one 55 seconds later is accepted.
   */
  method WriteScenario(owner: Account, t: U64, active: seq<Account>)
    returns (low: Status, high: Status, first: Status, early: Status, later: Status)
    requires |active| <= PRODUCER_SLOTS && t + ONE_MINUTE <= NOW_MAX
    ensures low == OutOfRange && high == OutOfRange
    ensures first == Accepted && early == TooSoon && later == Accepted
  {
    var c := new DelphiOracle();
    var configured := c.SetOracles([owner], true);
    low := c.Write(owner, 99, true, t, active);
    high := c.Write(owner, 100000001, true, t, active);
    first := c.Write(owner, 150, true, t, active);
    early := c.Write(owner, 150, true, t + 10000000, active);
    later := c.Write(owner, 150, true, t + ONE_MINUTE, active);
    assert c.stats[owner] == Stats(owner, t + ONE_MINUTE, 1);
  }
}
