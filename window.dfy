/**
 The sliding window of datapoints, the `eosusd` table of contract/oracle.cpp:40-54, and
 what update_eosusd_oracle (contract/oracle.cpp:137-225) does to it.

 The table is modelled as the sequence of its records in primary-key order, the order in
 which `begin()` ... `end()` walk it: `w[0]` is the record with the smallest `id` (the
 newest) and `w[|w| - 1]` the one with the largest `id` (the oldest).
 */
module Window {
  import opened Constants
  import opened Averaging

  datatype Datapoint = Datapoint(id: U64, owner: Account, value: U64, average: U64, timestamp: U64)

  /** The values of the records, in primary-key order. */
  function Values(w: seq<Datapoint>): seq<int>
  {
    seq(|w|, i requires 0 <= i < |w| => w[i].value)
  }

  /**
   What every reachable window satisfies: at most 21 records, ids contiguous and ascending
   in primary-key order, and every value and average within the accepted range.
   */
  predicate WindowValid(w: seq<Datapoint>)
  {
    && |w| <= DATAPOINTS_COUNT
    && (forall i :: 0 <= i < |w| ==> w[i].id == w[0].id + i)
    && (forall i :: 0 <= i < |w| ==> InRange(w[i].value) && InRange(w[i].average))
  }

  /** The id the next record gets: one below the smallest, or UINT64_MAX in an empty table. */
  function NextId(w: seq<Datapoint>): int
  {
    if w == [] then UINT64_MAX else w[0].id - 1
  }

  /**
   The ids do not wrap around: either the table is empty or its smallest id is not 0.
   (The contract computes `latest->id - 1` in 64 bits; the model leaves that case out.)
   */
  predicate CanAdmit(w: seq<Datapoint>)
  {
    w == [] || w[0].id > 0
  }

  /**
   The window after update_eosusd_oracle accepts `value` from `owner` at time `now`.
   A full window first loses its last record (largest id); the new record goes in front.
   Only on that eviction path is the new record's average the trimmed mean of the window
   as it stands after the insert; otherwise it is the value itself.
   */
  function Admit(w: seq<Datapoint>, owner: Account, value: U64, now: U64): (r: seq<Datapoint>)
    requires WindowValid(w) && CanAdmit(w) && InRange(value)
    ensures |r| == if |w| < DATAPOINTS_COUNT then |w| + 1 else DATAPOINTS_COUNT
    ensures r[0].id == NextId(w) && r[0].owner == owner && r[0].value == value && r[0].timestamp == now
  {
    if w == [] then
      [Datapoint(UINT64_MAX, owner, value, value, now)]
    else if |w| + 1 > DATAPOINTS_COUNT then
      var survivors := w[..|w| - 1];
      var values := [value as int] + Values(survivors);
      TrimmedMeanBounds(values, VAL_MIN, VAL_MAX);
      [Datapoint(w[0].id - 1, owner, value, TrimmedMean(values), now)] + survivors
    else
      [Datapoint(w[0].id - 1, owner, value, value, now)] + w
  }

  /** Ids in a valid window are distinct, and the first record holds the smallest. */
  lemma IdsAscending(w: seq<Datapoint>)
    requires WindowValid(w)
    ensures forall i, j :: 0 <= i < j < |w| ==> w[i].id < w[j].id
  {
  }

  /** Admitting a value keeps the window valid, and the new record gets `NextId`. */
  lemma AdmitValid(w: seq<Datapoint>, owner: Account, value: U64, now: U64)
    requires WindowValid(w) && CanAdmit(w) && InRange(value)
    ensures WindowValid(Admit(w, owner, value, now))
    ensures Admit(w, owner, value, now)[0].id == NextId(w)
  {
    if w != [] && |w| + 1 > DATAPOINTS_COUNT {
      var survivors := w[..|w| - 1];
      var average := TrimmedMean(Values([Datapoint(w[0].id - 1, owner, value, 0, now)] + survivors));
      AdmitEvicting(w, owner, value, now, average);
      PrefixValid(w, |w| - 1);
      PrependValid(Datapoint(w[0].id - 1, owner, value, average, now), survivors);
    } else if w != [] {
      PrependValid(Datapoint(w[0].id - 1, owner, value, value, now), w);
    }
  }

  /** A prefix of a valid window is valid. */
  lemma PrefixValid(w: seq<Datapoint>, n: nat)
    requires WindowValid(w) && n <= |w|
    ensures WindowValid(w[..n])
  {
  }

  /** A record in range whose id is one below the first id may go in front of a window with room. */
  lemma PrependValid(d: Datapoint, rest: seq<Datapoint>)
    requires WindowValid(rest) && |rest| < DATAPOINTS_COUNT
    requires rest == [] || d.id + 1 == rest[0].id
    requires InRange(d.value) && InRange(d.average)
    ensures WindowValid([d] + rest)
  {
    var r := [d] + rest;
    forall i | 1 <= i < |r|
      ensures r[i].id == r[0].id + i
    {
      assert r[i] == rest[i - 1];
    }
  }

  /** The values of a window with one record in front. */
  lemma ValuesCons(d: Datapoint, rest: seq<Datapoint>)
    ensures Values([d] + rest) == [d.value as int] + Values(rest)
  {
  }

  /**
   At capacity, a window that loses its last record and gains a new first one whose
   average is the trimmed mean of the resulting values is the admitted window.
   */
  lemma AdmitEvicting(w: seq<Datapoint>, owner: Account, value: U64, now: U64, average: int)
    requires WindowValid(w) && CanAdmit(w) && InRange(value) && |w| == DATAPOINTS_COUNT
    requires average == TrimmedMean(Values([Datapoint(w[0].id - 1, owner, value, 0, now)] + w[..|w| - 1]))
    ensures InRange(average) && average <= UINT64_MAX
    ensures Admit(w, owner, value, now)
      == [Datapoint(w[0].id - 1, owner, value, average, now)] + w[..|w| - 1]
  {
    var survivors := w[..|w| - 1];
    ValuesCons(Datapoint(w[0].id - 1, owner, value, 0, now), survivors);
    TrimmedMeanBounds([value as int] + Values(survivors), VAL_MIN, VAL_MAX);
  }

  /** The window grows by one record until it holds 21, and then stays at 21. */
  lemma AdmitSize(w: seq<Datapoint>, owner: Account, value: U64, now: U64)
    requires WindowValid(w) && CanAdmit(w) && InRange(value)
    ensures |Admit(w, owner, value, now)| == if |w| < DATAPOINTS_COUNT then |w| + 1 else DATAPOINTS_COUNT
  {
  }

  /**
   Which old records survive: below capacity all of them; at capacity all but the last,
   which is the one with the largest id. Each survivor is unchanged, average included.
   */
  lemma AdmitEvictsOldest(w: seq<Datapoint>, owner: Account, value: U64, now: U64)
    requires WindowValid(w) && CanAdmit(w) && InRange(value)
    ensures |w| < DATAPOINTS_COUNT ==> Admit(w, owner, value, now)[1..] == w
    ensures |w| == DATAPOINTS_COUNT ==>
      && Admit(w, owner, value, now)[1..] == w[..DATAPOINTS_COUNT - 1]
      && forall i :: 0 <= i < DATAPOINTS_COUNT - 1 ==> w[i].id < w[DATAPOINTS_COUNT - 1].id
  {
  }

  /**
   The new record: it carries the owner, value and time of the write, and its average is
   the value itself below capacity and the trimmed mean of the resulting window at capacity.
   */
  lemma AdmitNewRecord(w: seq<Datapoint>, owner: Account, value: U64, now: U64)
    requires WindowValid(w) && CanAdmit(w) && InRange(value)
    ensures
      var r := Admit(w, owner, value, now);
      && |r| > 0
      && r[0].owner == owner && r[0].value == value && r[0].timestamp == now
      && (|w| < DATAPOINTS_COUNT ==> r[0].average == value)
      && (|w| == DATAPOINTS_COUNT ==> |r| == 21 && r[0].average == TrimmedMean(Values(r)))
  {
    if |w| == DATAPOINTS_COUNT {
      var r := Admit(w, owner, value, now);
      ValuesCons(r[0], w[..|w| - 1]);
    }
  }

  /**
   At capacity the new average depends on nothing but the multiset of values left in the
   window: the 20 surviving values and the new one.
   */
  lemma AdmitAverageFromValues(w: seq<Datapoint>, owner: Account, value: U64, now: U64, shuffled: seq<int>)
    requires WindowValid(w) && CanAdmit(w) && InRange(value)
    requires |w| == DATAPOINTS_COUNT
    requires multiset(shuffled) == multiset(Values(w[..DATAPOINTS_COUNT - 1])) + multiset{value as int}
    ensures |shuffled| == 21
    ensures Admit(w, owner, value, now)[0].average == TrimmedMean(shuffled)
  {
    var values := [value as int] + Values(w[..DATAPOINTS_COUNT - 1]);
    assert multiset(values) == multiset(shuffled);
    TrimmedMeanPermutation(values, shuffled);
  }

  /** One accepted write, as its inputs reach update_eosusd_oracle. */
  datatype Submission = Submission(owner: Account, value: U64, now: U64)

  predicate AllInRange(subs: seq<Submission>)
  {
    forall k :: 0 <= k < |subs| ==> InRange(subs[k].value)
  }

  /**
   The window after a run of accepted writes into an empty table, for instance the writes
   that follow a `clear`.
   */
  function Replay(subs: seq<Submission>): (w: seq<Datapoint>)
    requires |subs| <= UINT64_MAX && AllInRange(subs)
    ensures WindowValid(w)
    ensures |w| == if |subs| < DATAPOINTS_COUNT then |subs| else DATAPOINTS_COUNT
    ensures w != [] ==> w[0].id == UINT64_MAX - (|subs| - 1)
  {
    if subs == [] then []
    else
      var prev := Replay(subs[..|subs| - 1]);
      var s := subs[|subs| - 1];
      AdmitValid(prev, s.owner, s.value, s.now);
      AdmitSize(prev, s.owner, s.value, s.now);
      Admit(prev, s.owner, s.value, s.now)
  }

  /**
   The first 21 writes after an empty table publish their own value as the average; from
   the 22nd on, every write publishes the trimmed mean of the window.
   */
  lemma {:induction false} ReplayAverage(subs: seq<Submission>)
    requires 0 < |subs| <= UINT64_MAX && AllInRange(subs)
    ensures |subs| <= DATAPOINTS_COUNT ==> Replay(subs)[0].average == subs[|subs| - 1].value
    ensures |subs| > DATAPOINTS_COUNT ==>
      |Replay(subs)| == 21 && Replay(subs)[0].average == TrimmedMean(Values(Replay(subs)))
  {
    var prev := Replay(subs[..|subs| - 1]);
    var s := subs[|subs| - 1];
    AdmitNewRecord(prev, s.owner, s.value, s.now);
  }
}
