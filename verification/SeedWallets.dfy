/** Which wallets exist: distinct currencies per customer, drawn by weight without replacement. */
module SeedWallets {
  import opened Wrappers
  import opened SeedBook
  import opened SeedRng
  import SeedRemittances

  ghost predicate DistinctValues(entries: seq<Weighted<string>>) {
    forall i, j :: 0 <= i < j < |entries| ==> entries[i].value != entries[j].value
  }

  ghost predicate PositiveWeights(entries: seq<Weighted<string>>) {
    forall e | e in entries :: e.weight > 0.0
  }

  ghost predicate ValueOf(entries: seq<Weighted<string>>, value: string) {
    exists e :: e in entries && e.value == value
  }

  /** What is left once one entry is taken out. */
  function WithoutAt(entries: seq<Weighted<string>>, index: nat): seq<Weighted<string>>
    requires index < |entries|
  {
    entries[..index] + entries[index + 1..]
  }

  lemma WithoutAtKeepsTheRest(entries: seq<Weighted<string>>, index: nat)
    requires index < |entries|
    ensures var rest := WithoutAt(entries, index);
            && |rest| == |entries| - 1 && (forall e | e in rest :: e in entries)
            && (DistinctValues(entries) ==>
                  DistinctValues(rest) && forall e | e in rest :: e.value != entries[index].value)
  {
    var rest := WithoutAt(entries, index);
    assert forall k :: 0 <= k < |rest| ==> rest[k] == entries[if k < index then k else k + 1];
  }

  /** Up to count entries' values, no entry twice; never fails on positive weights. */
  method PickDistinctWeighted(rng: DeterministicRng, entries: seq<Weighted<string>>, count: int)
    returns (chosen: seq<string>)
    requires PositiveWeights(entries)
    modifies rng`state
    ensures DistinctValues(entries) ==> forall i, j :: 0 <= i < j < |chosen| ==> chosen[i] != chosen[j]
    ensures |chosen| == if count < 0 then 0 else if count < |entries| then count else |entries|
    ensures forall c | c in chosen :: ValueOf(entries, c)
  {
    var pool := entries;
    chosen := [];
    var i := 0;
    while i < count && |pool| > 0
      invariant (i == 0 || 0 < i <= count) && |chosen| == i && |chosen| + |pool| == |entries|
      invariant forall e | e in pool :: e in entries
      invariant forall c | c in chosen :: ValueOf(entries, c)
      invariant DistinctValues(entries) ==>
                  && DistinctValues(pool)
                  && (forall i, j :: 0 <= i < j < |chosen| ==> chosen[i] != chosen[j])
                  && forall c, e | c in chosen && e in pool :: e.value != c
      decreases |pool|
    {
      PositiveTotal(pool, |pool|);
      var picked := rng.WeightedPick(pool);
      var index := picked.value;
      assert pool[index] in pool;
      WithoutAtKeepsTheRest(pool, index);
      assert DistinctValues(entries) ==>
          forall k :: 0 <= k < |chosen| ==> chosen[k] in chosen && pool[index].value != chosen[k];
      chosen, pool := chosen + [pool[index].value], WithoutAt(pool, index);
      i := i + 1;
    }
  }

  /** At most one wallet per account and currency. */
  ghost predicate OnePerCurrency(wallets: seq<SeedWallet>) {
    forall i, j | 0 <= i < j < |wallets| ::
      wallets[i].accountId != wallets[j].accountId || wallets[i].currency != wallets[j].currency
  }

  ghost predicate DistinctAccounts(customers: seq<Customer>) {
    forall i, j :: 0 <= i < j < |customers| ==> customers[i].accountId != customers[j].accountId
  }

  ghost predicate FreshIds(wallets: seq<SeedWallet>, low: nat, high: nat) {
    && (forall i :: 0 <= i < |wallets| ==> low <= wallets[i].id < high)
    && (forall i, j :: 0 <= i < j < |wallets| ==> wallets[i].id != wallets[j].id)
  }

  /** Opens one customer's wallets, empty: as many currencies as are drawn and available, no entry drawn twice. */
  method OpenWallets(config: Config, rng: DeterministicRng, account: nat, active: seq<Weighted<string>>)
    returns (refs: seq<SeedWallet>)
    requires PositiveWeights(active)
    modifies rng
    ensures fresh(refs)
    ensures forall w | w in refs :: w.accountId == account && w.balance == 0 && ValueOf(active, w.currency)
    ensures DistinctValues(active) ==> OnePerCurrency(refs)
    ensures var range, n := config.walletsPerCustomer, |active|;
            0 <= range.min <= range.max ==>
              (if range.min < n then range.min else n) <= |refs| <= if range.max < n then range.max else n
    ensures FreshIds(refs, old(rng.issued), rng.issued) && rng.issued >= old(rng.issued)
  {
    var max := if config.walletsPerCustomer.max < |active| then config.walletsPerCustomer.max else |active|;
    var min := if config.walletsPerCustomer.min < max then config.walletsPerCustomer.min else max;
    var count := rng.NextInt(min, max);
    var currencies := PickDistinctWeighted(rng, active, count);
    refs := OpenEach(rng, account, currencies);
    assert forall i :: 0 <= i < |refs| ==> refs[i].currency == currencies[i] && currencies[i] in currencies;
  }

  method OpenEach(rng: DeterministicRng, account: nat, currencies: seq<string>) returns (refs: seq<SeedWallet>)
    modifies rng
    ensures |refs| == |currencies| && fresh(refs)
    ensures forall i | 0 <= i < |refs| ::
              refs[i].accountId == account && refs[i].currency == currencies[i] && refs[i].balance == 0
    ensures FreshIds(refs, old(rng.issued), rng.issued) && rng.issued >= old(rng.issued)
  {
    refs := [];
    for k := 0 to |currencies|
      invariant |refs| == k && fresh(refs)
      invariant forall i | 0 <= i < k ::
                  refs[i].accountId == account && refs[i].currency == currencies[i] && refs[i].balance == 0
      invariant FreshIds(refs, old(rng.issued), rng.issued) && rng.issued >= old(rng.issued)
    {
      var id := rng.Uuid();
      var w := new SeedWallet(id, account, currencies[k], 0);
      refs := refs + [w];
    }
  }

  ghost predicate OnePerCurrencyOf(refs: seq<SeedWallet>, more: seq<SeedWallet>, account: nat) {
    && OnePerCurrency(refs) && OnePerCurrency(more)
    && (forall w | w in refs :: w.accountId != account) && forall w | w in more :: w.accountId == account
  }

  lemma AddingAnotherAccount(refs: seq<SeedWallet>, more: seq<SeedWallet>, account: nat)
    requires OnePerCurrencyOf(refs, more, account)
    ensures OnePerCurrency(refs + more)
  {
    assert forall i :: 0 <= i < |refs| ==> refs[i] in refs;
    assert forall i :: 0 <= i < |more| ==> more[i] in more;
  }

  ghost predicate OfOneOf(customers: seq<Customer>, n: nat, w: SeedWallet) {
    exists i :: 0 <= i < n && i < |customers| && customers[i].accountId == w.accountId
  }

  /** A currency that customers can get a wallet in. */
  ghost predicate Active(config: Config, code: string) {
    exists e :: e in config.currencyDistribution && e.weight > 0.0 && e.value == code
  }

  /** The wallets of all customers. None where the program throws because no currency has a positive weight. */
  method GenerateWallets(config: Config, rng: DeterministicRng, customers: seq<Customer>)
    returns (r: Option<seq<SeedWallet>>)
    modifies rng
    ensures r.Some? && DistinctAccounts(customers) && DistinctValues(config.currencyDistribution) ==>
              OnePerCurrency(r.value)
    ensures r.Some? <==> exists e :: e in config.currencyDistribution && e.weight > 0.0
    ensures r.Some? ==>
              && fresh(r.value) && FreshIds(r.value, old(rng.issued), rng.issued)
              && forall w | w in r.value ::
                  w.balance == 0 && OfOneOf(customers, |customers|, w) && Active(config, w.currency)
    ensures rng.issued >= old(rng.issued)
  {
    var active := SeedRemittances.PositiveWeights(config.currencyDistribution);
    if active == [] {
      return None;
    }
    assert active[0] in active;
    var refs: seq<SeedWallet> := [];
    for c := 0 to |customers|
      invariant DistinctAccounts(customers) && DistinctValues(config.currencyDistribution) ==> OnePerCurrency(refs)
      invariant fresh(refs) && rng.issued >= old(rng.issued) && FreshIds(refs, old(rng.issued), rng.issued)
      invariant forall w | w in refs :: w.balance == 0 && OfOneOf(customers, c, w) && Active(config, w.currency)
    {
      var more := OpenWallets(config, rng, customers[c].accountId, active);
      assert DistinctAccounts(customers) ==> forall w | w in refs :: w.accountId != customers[c].accountId;
      if OnePerCurrencyOf(refs, more, customers[c].accountId) {
        AddingAnotherAccount(refs, more, customers[c].accountId);
      }
      refs := refs + more;
    }
    return Some(refs);
  }
}
