/** The counters shared by all orders: how often a provider has been used, and how often it has failed. */
module ProviderMetrics {
  import opened Wrappers
  import opened ProviderSelection

  type Ledger = map<ProviderId, Metrics>

  const U32_MAX: u32 := 0xFFFF_FFFF

  function UsagesOf(m: Ledger, id: ProviderId): u32 {
    if id in m then m[id].numUsages else 0
  }

  function Increment(n: u32): u32 {
    (n + 1) % U32_LIMIT
  }

  function Decrement(n: u32): u32 {
    (n + U32_LIMIT - 1) % U32_LIMIT
  }

  function AfterUse(m: Ledger, id: ProviderId): Ledger {
    m[id := if id in m then m[id].(numUsages := Increment(m[id].numUsages)) else Metrics(1, 0)]
  }

  /** Increments and decrements add up, modulo 2^32. */
  function Shifted(n: u32, up: nat, down: nat): u32 {
    (n + up - down) % U32_LIMIT
  }

  /** A provider without an entry gets one with no failures: the failure itself is not counted. */
  function AfterPunishment(m: Ledger, id: ProviderId): Ledger {
    m[id := if id in m then m[id].(numFailures := Increment(m[id].numFailures)) else Metrics(0, 0)]
  }

  function PardonOne(m: Ledger, id: ProviderId): Ledger {
    if id in m then m[id := m[id].(numFailures := Decrement(m[id].numFailures))] else m
  }

  function AfterPardon(m: Ledger, ids: seq<ProviderId>): Ledger {
    if ids == [] then m else PardonOne(AfterPardon(m, ids[..|ids| - 1]), ids[|ids| - 1])
  }

  lemma IncrementAdds(n: int)
    ensures Increment(n % U32_LIMIT) == (n + 1) % U32_LIMIT
  {
  }

  lemma DecrementSubtracts(n: nat, k: nat)
    ensures Decrement((n - k) % U32_LIMIT) == (n - (k + 1)) % U32_LIMIT
  {
  }

  /** Each counter falls by its share, modulo 2^32, and nothing else changes. */
  lemma {:induction false} PardonSubtracts(m: Ledger, ids: seq<ProviderId>, id: ProviderId)
    ensures AfterPardon(m, ids).Keys == m.Keys
    ensures id in m ==> AfterPardon(m, ids)[id] == m[id].(numFailures := (m[id].numFailures - multiset(ids)[id]) % U32_LIMIT)
  {
    if ids == [] {
      assert multiset(ids)[id] == 0;
    } else {
      var earlier, last := ids[..|ids| - 1], ids[|ids| - 1];
      assert ids == earlier + [last];
      assert multiset(ids)[id] == multiset(earlier)[id] + if last == id then 1 else 0;
      PardonSubtracts(m, earlier, id);
      if id in m {
        DecrementSubtracts(m[id].numFailures, multiset(earlier)[id]);
      }
    }
  }

  lemma PardonKeepsEntries(m: Ledger, ids: seq<ProviderId>)
    ensures AfterPardon(m, ids).Keys == m.Keys
  {
    PardonSubtracts(m, ids, "");
  }

  /** A single pardon takes back a punishment exactly if the provider had an entry before, even if the counter has wrapped
      around. Otherwise (this happens to a custom provider that fails for the first time), the counter ends at its maximum. */
  lemma PardonUndoesPunishExactlyWhen(m: Ledger, id: ProviderId)
    ensures AfterPardon(AfterPunishment(m, id), [id]) == m <==> id in m
    ensures id in AfterPardon(AfterPunishment(m, id), [id])
    ensures AfterPardon(AfterPunishment(m, id), [id])[id].numFailures == if id in m then m[id].numFailures else U32_MAX
  {
    assert AfterPardon(AfterPunishment(m, id), [id]) == PardonOne(AfterPunishment(m, id), id) by {
      assert [id][..0] == [];
    }
    if id in m {
      assert AfterPardon(AfterPunishment(m, id), [id])[id] == m[id];
    }
  }

  datatype Operation = Used(id: ProviderId) | Punished(id: ProviderId) | Pardoned(ids: seq<ProviderId>)

  function AfterOperation(m: Ledger, operation: Operation): Ledger {
    match operation
    case Used(id) => AfterUse(m, id)
    case Punished(id) => AfterPunishment(m, id)
    case Pardoned(ids) => AfterPardon(m, ids)
  }

  /** The counters after some operations have been carried out one after the other. */
  function Apply(m: Ledger, operations: seq<Operation>): Ledger
    decreases |operations|
  {
    if operations == [] then m else Apply(AfterOperation(m, operations[0]), operations[1..])
  }

  lemma {:induction false} ApplyInTwoParts(m: Ledger, a: seq<Operation>, b: seq<Operation>)
    ensures Apply(m, a + b) == Apply(Apply(m, a), b)
    decreases |a|
  {
    if a == [] {
      assert a + b == b;
    } else {
      assert (a + b)[1..] == a[1..] + b;
      ApplyInTwoParts(AfterOperation(m, a[0]), a[1..], b);
    }
  }

  lemma ApplyToOne(m: Ledger, operation: Operation)
    ensures Apply(m, [operation]) == AfterOperation(m, operation)
  {
    assert Apply(AfterOperation(m, operation), [operation][1..]) == AfterOperation(m, operation);
  }

  /** The shared counters as one order sees them, with the operations that this order has carried out. */
  class SharedMetrics {
    var entries: Ledger
    var operations: seq<Operation>

    constructor ()
      ensures entries == map[] && operations == []
    {
      entries, operations := map[], [];
    }

    method RecordUsage(id: ProviderId)
      modifies this
      ensures entries == AfterUse(old(entries), id) && operations == old(operations) + [Used(id)]
    {
      if id in entries {
        entries := entries[id := entries[id].(numUsages := Increment(entries[id].numUsages))];
      } else {
        entries := entries[id := Metrics(1, 0)];
      }
      operations := operations + [Used(id)];
    }

    method Punish(id: ProviderId)
      modifies this
      ensures entries == AfterPunishment(old(entries), id) && operations == old(operations) + [Punished(id)]
    {
      if id in entries {
        entries := entries[id := entries[id].(numFailures := Increment(entries[id].numFailures))];
      } else {
        entries := entries[id := Metrics(0, 0)];
      }
      operations := operations + [Punished(id)];
    }

    method Pardon(ids: seq<ProviderId>)
      modifies this
      ensures entries == AfterPardon(old(entries), ids) && operations == old(operations) + [Pardoned(ids)]
    {
      for i := 0 to |ids|
        invariant entries == AfterPardon(old(entries), ids[..i]) && operations == old(operations)
      {
        assert ids[..i + 1][..i] == ids[..i];
        var notGuilty := ids[i];
        if notGuilty in entries {
          var failures := entries[notGuilty].numFailures;
          entries := entries[notGuilty := entries[notGuilty].(numFailures := Decrement(failures))];
        }
      }
      assert ids[..|ids|] == ids;
      operations := operations + [Pardoned(ids)];
    }

    /** Other orders may do anything to the counters in the meantime. */
    method Interfere()
      modifies this`entries
    {
      entries := *;
    }
  }
}
