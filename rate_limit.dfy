/**
 The per-account rate limiter: the `eosusdstats` table of contract/oracle.cpp:56-64 and
 check_last_push (contract/oracle.cpp:106-134). The table is a map from owner to record.
 */
module RateLimit {
  import opened Constants

  datatype Stats = Stats(owner: Account, timestamp: U64, count: U64)

  /**
   What every reachable stats table satisfies: each record is keyed by its owner, its time
   leaves room for the cooldown addition in 64 bits, and every counted write after the
   first took at least one cooldown period, so `count * ONE_MINUTE <= timestamp`.
   */
  predicate StatsValid(stats: map<Account, Stats>)
  {
    forall o :: o in stats ==>
      && stats[o].owner == o
      && stats[o].timestamp <= NOW_MAX
      && stats[o].count * ONE_MINUTE <= stats[o].timestamp
  }

  /** An account may write at `now` if it never wrote, or its last write is a cooldown ago. */
  predicate CooledDown(stats: map<Account, Stats>, owner: Account, now: int)
  {
    owner !in stats || stats[owner].timestamp + ONE_MINUTE <= now
  }

  /**
   The stats table after an accepted write: a first write records `now` with count 0; a
   later one records `now` and counts one more write.
   */
  function Recorded(stats: map<Account, Stats>, owner: Account, now: U64): (r: map<Account, Stats>)
    requires StatsValid(stats) && now <= NOW_MAX && CooledDown(stats, owner, now)
    ensures owner in r && r[owner].timestamp == now
    ensures r[owner].count == if owner in stats then stats[owner].count + 1 else 0
    ensures forall o :: o in stats && o != owner ==> o in r && r[o] == stats[o]
  {
    if owner in stats then
      stats[owner := Stats(owner, now, stats[owner].count + 1)]
    else
      stats[owner := Stats(owner, now, 0)]
  }

  /** Recording a write keeps the table valid and touches no other account's record. */
  lemma RecordedValid(stats: map<Account, Stats>, owner: Account, now: U64)
    requires StatsValid(stats) && now <= NOW_MAX && CooledDown(stats, owner, now)
    ensures StatsValid(Recorded(stats, owner, now))
    ensures Recorded(stats, owner, now).Keys == stats.Keys + {owner}
    ensures forall o :: o in stats && o != owner ==> Recorded(stats, owner, now)[o] == stats[o]
  {
  }

  /** The write counter cannot overflow: it stays below the clock divided by the cooldown. */
  lemma CountBounded(stats: map<Account, Stats>, o: Account)
    requires StatsValid(stats) && o in stats
    ensures stats[o].count <= NOW_MAX / ONE_MINUTE
  {
    assert stats[o].count * ONE_MINUTE <= NOW_MAX;
  }

  /**
   After one write at `t`, a write 10 seconds later is refused and one 55 seconds later is
   accepted and counted.
   */
  lemma CooldownScenario(owner: Account, t: U64)
    requires t + ONE_MINUTE <= NOW_MAX
    ensures
      var first := Recorded(map[], owner, t);
      && first[owner] == Stats(owner, t, 0)
      && !CooledDown(first, owner, t + 10000000)
      && CooledDown(first, owner, t + ONE_MINUTE)
      && Recorded(first, owner, t + ONE_MINUTE)[owner] == Stats(owner, t + ONE_MINUTE, 1)
  {
  }
}
