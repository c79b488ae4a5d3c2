/**
 Who may write: check_oracle (contract/oracle.cpp:81-104). An account qualifies if it is in
 the `oracles` table or in the producer array that `get_active_producers` fills. That
 array is declared with 21 zeroed slots, so when fewer than 21 producers are active the
 unused slots hold the account name 0.
 */
module Authorisation {
  import opened Constants

  /** The producer array as check_oracle sees it: the active producers, then zeros. */
  function ProducerSlots(active: seq<Account>): (slots: seq<Account>)
    requires |active| <= PRODUCER_SLOTS
    ensures |slots| == PRODUCER_SLOTS
  {
    active + seq(PRODUCER_SLOTS - |active|, _ => 0)
  }

  predicate Authorised(oracles: seq<Account>, active: seq<Account>, owner: Account)
    requires |active| <= PRODUCER_SLOTS
  {
    owner in oracles || owner in ProducerSlots(active)
  }

  /**
   For every account other than 0 the zeroed slots do not matter: it qualifies exactly
   when it is an approved oracle or an active producer.
   */
  lemma AuthorisedNonZero(oracles: seq<Account>, active: seq<Account>, owner: Account)
    requires |active| <= PRODUCER_SLOTS && owner != 0
    ensures Authorised(oracles, active, owner) <==> owner in oracles || owner in active
  {
    var slots := ProducerSlots(active);
    if owner in slots {
      var k :| 0 <= k < |slots| && slots[k] == owner;
      assert k < |active| && active[k] == owner;
    }
    if owner in active {
      var k :| 0 <= k < |active| && active[k] == owner;
      assert slots[k] == owner;
    }
  }

  /** With fewer than 21 active producers the account named 0 qualifies. */
  lemma ZeroAuthorisedWithFewProducers(oracles: seq<Account>, active: seq<Account>)
    requires |active| < PRODUCER_SLOTS
    ensures Authorised(oracles, active, 0)
  {
    assert ProducerSlots(active)[PRODUCER_SLOTS - 1] == 0;
  }

  /** Every active producer passes the check, whatever the oracle table holds. */
  lemma ActiveProducerAuthorised(oracles: seq<Account>, active: seq<Account>, owner: Account)
    requires |active| <= PRODUCER_SLOTS && owner in active
    ensures Authorised(oracles, active, owner)
  {
    var k :| 0 <= k < |active| && active[k] == owner;
    assert ProducerSlots(active)[k] == owner;
  }
}
