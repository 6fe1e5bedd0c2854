/** The whole pipeline: clone the treasury, open, fund, remit, top up. */
module SeedDataset {
  import opened Wrappers
  import opened SeedBook
  import opened SeedRng
  import SeedFunding
  import SeedRemittances
  import SeedContention
  import SeedWallets
  import Money

  datatype Dataset = Dataset(
    wallets: seq<SeedWallet>, treasury: map<string, SeedWallet>, rows: seq<Row>,
    remittances: seq<SeedRemittances.Remittance>,
    intents: seq<SeedContention.Intent>)

  /** Each account's wallets in order, for exactly the accounts that have one. */
  method GroupWalletsByAccountId(wallets: seq<SeedWallet>) returns (groups: map<nat, seq<SeedWallet>>)
    ensures forall account :: Having(wallets, ByAccount(), account) == if account in groups then groups[account] else []
    ensures forall account | account in groups :: groups[account] != []
  {
    groups := map[];
    for i := 0 to |wallets|
      invariant forall account ::
                  Having(wallets[..i], ByAccount(), account) == if account in groups then groups[account] else []
      invariant forall account | account in groups :: groups[account] != []
    {
      var w := wallets[i];
      assert wallets[..i + 1][..i] == wallets[..i];
      groups := groups[w.accountId := (if w.accountId in groups then groups[w.accountId] else []) + [w]];
    }
    assert wallets[..|wallets|] == wallets;
  }

  /** Copies the snapshot, so that the caller's wallets are never written. */
  method CloneTreasury(snapshot: seq<SeedWallet>) returns (treasury: map<string, SeedWallet>)
    requires OnePerCurrencyAndId(snapshot)
    ensures forall code :: code in treasury <==> exists w :: w in snapshot && w.currency == code
    ensures forall code | code in treasury :: fresh(treasury[code]) && treasury[code].currency == code
    ensures forall w | w in snapshot ::
              w.currency in treasury && treasury[w.currency].id == w.id && treasury[w.currency].balance == w.balance
  {
    treasury := map[];
    for i := 0 to |snapshot|
      invariant forall code :: code in treasury <==> exists w :: w in snapshot[..i] && w.currency == code
      invariant forall code | code in treasury :: fresh(treasury[code]) && treasury[code].currency == code
      invariant forall k :: 0 <= k < i ==>
                  var w := snapshot[k];
                  w.currency in treasury && treasury[w.currency].id == w.id && treasury[w.currency].balance == w.balance
    {
      var original := snapshot[i];
      assert snapshot[..i + 1] == snapshot[..i] + [original];
      var clone := new SeedWallet(original.id, original.accountId, original.currency, original.balance);
      treasury := treasury[original.currency := clone];
    }
    assert snapshot[..|snapshot|] == snapshot;
  }

  /** Runs the generators over treasuries and customer wallets that are already there. None where the program throws. */
  method RunGenerators(config: Config, rng: DeterministicRng, customers: seq<Customer>, wallets: seq<SeedWallet>,
                       treasury: map<string, SeedWallet>, ghost all: set<SeedWallet>)
    returns (r: Option<Dataset>, ghost funding: seq<Row>, ghost topUps: seq<Row>)
    requires DistinctIds(all)
    requires all == (set w | w in wallets) + treasury.Values
    requires SeedBook.TreasuryApart(treasury, set w | w in wallets)
    modifies rng, all
    ensures r.Some? ==>
              && r.value.wallets == wallets && r.value.treasury == treasury
              && Moved(all, r.value.rows) && GroupsBalanced(r.value.rows)
              && r.value.rows == funding + SeedRemittances.AllRows(r.value.remittances, treasury) + topUps
              && (!config.highContention ==> topUps == [])
    ensures SeedRemittances.SmallJitter(config) ==>
              && CustomersStay(all, treasury)
              && (OneSided(config) ==> NoneSinks(all))
    ensures Provided(config, |customers|, wallets, treasury) ==> r.Some?
    ensures r.Some? ==> PoolSuffices(config, |customers|)
  {
    funding, topUps := [], [];
    var groups := GroupWalletsByAccountId(wallets);
    forall account | account in groups ensures forall w | w in groups[account] :: w in wallets {
      HavingMembers(wallets, ByAccount(), account);
      assert Having(wallets, ByAccount(), account) == groups[account];
    }
    var rows, generated;
    rows, generated, funding := FundAndRemit(config, rng, customers, wallets, groups, treasury, all);
    if generated.None? {
      return None, [], [];
    }
    var added, intents := AddContention(config, rng, customers, groups, treasury, all);
    if intents.None? {
      return None, [], [];
    }
    AppendRows(rows, added);
    r := Some(Dataset(wallets, treasury, rows + added, generated.value.remittances, intents.value));
    return r, funding, added;
  }

  /** Funding and then remittances. None where the program throws. */
  method FundAndRemit(config: Config, rng: DeterministicRng, customers: seq<Customer>, wallets: seq<SeedWallet>,
                      groups: map<nat, seq<SeedWallet>>, treasury: map<string, SeedWallet>, ghost all: set<SeedWallet>)
    returns (rows: seq<Row>, generated: Option<SeedRemittances.Generated>, ghost funding: seq<Row>)
    requires DistinctIds(all) && treasury.Values <= all && forall w | w in wallets :: w in all
    requires forall account | account in groups :: forall w | w in groups[account] :: w in wallets
    requires SeedBook.TreasuryApart(treasury, set w | w in wallets)
    modifies rng, all
    ensures generated.Some? ==>
              && Moved(all, rows) && GroupsBalanced(rows)
              && rows == funding + SeedRemittances.AllRows(generated.value.remittances, treasury)
    ensures SeedRemittances.SmallJitter(config) ==> CustomersStay(all, treasury)
    ensures SeedRemittances.SmallJitter(config) && OneSided(config) ==> NoneSinks(all)
    ensures (&& SeedFunding.CanFund(config, wallets, treasury) && SeedRemittances.CanDraw(config)
             && forall w | w in wallets :: SeedRemittances.Usable(w.currency, treasury)) ==> generated.Some?
    ensures rng.issued >= old(rng.issued)
  {
    funding := [];
    var funded := SeedFunding.GenerateFunding(config, rng, wallets, treasury, all);
    if funded.None? {
      return [], None, [];
    }
    generated := SeedRemittances.GenerateRemittances(config, rng, customers, groups, treasury, all);
    if generated.None? {
      return [], None, [];
    }
    AppendRows(funded.value, generated.value.rows);
    return funded.value + generated.value.rows, generated, funded.value;
  }

  /** No customer's balance that was not negative has become so. */
  twostate predicate CustomersStay(all: set<SeedWallet>, treasury: map<string, SeedWallet>)
    reads all
  {
    forall w | w in all && w !in treasury.Values && old(w.balance) >= 0 :: w.balance >= 0
  }

  /** Every draw has something to give, and every wallet's currency is known and has a treasury. */
  ghost predicate Provided(config: Config, customers: nat, wallets: seq<SeedWallet>,
                           treasury: map<string, SeedWallet>) {
    && SeedFunding.CanFund(config, wallets, treasury) && SeedRemittances.CanDraw(config)
    && (forall w | w in wallets :: SeedRemittances.Usable(w.currency, treasury)) && PoolSuffices(config, customers)
  }

  /** Requests can be made only in a pool that has someone in it. */
  predicate PoolSuffices(config: Config, customers: nat) {
    config.highContention && config.contentionIntents > 0 ==>
      SeedContention.PoolSize(config.contentionSharedAccounts, customers) > 0
  }

  /** The high-contention scenario's extra rows and requests; nothing in any other scenario. */
  method AddContention(config: Config, rng: DeterministicRng, customers: seq<Customer>,
                       groups: map<nat, seq<SeedWallet>>, treasury: map<string, SeedWallet>, ghost all: set<SeedWallet>)
    returns (topUps: seq<Row>, intents: Option<seq<SeedContention.Intent>>)
    requires DistinctIds(all) && treasury.Values <= all
    requires forall account | account in groups :: forall w | w in groups[account] :: w in all && w !in treasury.Values
    requires forall code | code in treasury :: treasury[code].currency == code
    modifies rng, all
    ensures Moved(all, topUps) && NoneSinks(all) && GroupsBalanced(topUps)
    ensures !config.highContention ==> topUps == [] && intents == Some([])
    ensures intents.Some? <==> PoolSuffices(config, |customers|)
  {
    if !config.highContention {
      return [], Some([]);
    }
    var pool;
    pool, topUps := SeedContention.BuildContentionPool(config, rng, customers, groups, treasury, all);
    if pool != [] {
      var generated := SeedContention.GenerateIntents(config, rng, pool, groups);
      return topUps, Some(generated);
    } else if config.contentionIntents > 0 {
      return topUps, None;
    }
    return topUps, Some([]);
  }

  ghost predicate OnePerCurrencyAndId(snapshot: seq<SeedWallet>) {
    forall i, j | 0 <= i < j < |snapshot| ::
      snapshot[i].currency != snapshot[j].currency && snapshot[i].id != snapshot[j].id
  }

  /** Every draw has something to give, and every active currency is known and has a treasury. */
  ghost predicate WellProvisioned(config: Config, customers: nat, snapshot: seq<SeedWallet>) {
    && SeedRemittances.CanDraw(config) && Cumulative(config.tierDistribution, |config.tierDistribution|) > 0.0
    && (forall e | e in config.currencyDistribution && e.weight > 0.0 ::
          Money.CurrencyFrom(e.value).Success? && exists w :: w in snapshot && w.currency == e.value)
    && PoolSuffices(config, customers)
  }

  /** The currencies of wallets that were opened are those the treasuries provide for. */
  lemma ProvisionsSuffice(config: Config, customers: nat, snapshot: seq<SeedWallet>, wallets: seq<SeedWallet>,
                          treasury: map<string, SeedWallet>)
    requires forall w | w in wallets :: SeedWallets.Active(config, w.currency)
    requires forall w | w in snapshot :: w.currency in treasury
    ensures WellProvisioned(config, customers, snapshot) ==> Provided(config, customers, wallets, treasury)
  {
    if !WellProvisioned(config, customers, snapshot) {
      return;
    }
    forall w | w in wallets ensures SeedRemittances.Usable(w.currency, treasury) {
      assert SeedWallets.Active(config, w.currency);
    }
  }

  /** Seeds the generator, clones the treasuries and opens the customers' wallets. */
  method Prepare(config: Config, seed: int, customers: seq<Customer>, snapshot: seq<SeedWallet>, firstId: nat)
    returns (rng: DeterministicRng, treasury: map<string, SeedWallet>, wallets: Option<seq<SeedWallet>>)
    requires OnePerCurrencyAndId(snapshot)
    requires forall w | w in snapshot :: w.id < firstId
    ensures fresh(rng) && (forall code | code in treasury :: fresh(treasury[code]))
    ensures forall w | w in snapshot ::
              w.currency in treasury && treasury[w.currency].id == w.id && treasury[w.currency].balance == w.balance
    ensures wallets.Some? <==> exists e :: e in config.currencyDistribution && e.weight > 0.0
    ensures wallets.Some? ==>
              && fresh(wallets.value) && (forall w | w in wallets.value :: w.balance == 0)
              && DistinctIds((set w | w in wallets.value) + treasury.Values)
              && SeedBook.TreasuryApart(treasury, set w | w in wallets.value)
              && (WellProvisioned(config, |customers|, snapshot) ==>
                    Provided(config, |customers|, wallets.value, treasury))
    ensures (&& wallets.Some?
             && SeedWallets.DistinctAccounts(customers)
             && SeedWallets.DistinctValues(config.currencyDistribution)) ==>
              SeedWallets.OnePerCurrency(wallets.value)
  {
    treasury := CloneTreasury(snapshot);
    rng := new DeterministicRng(seed, firstId);
    wallets := SeedWallets.GenerateWallets(config, rng, customers);
    if wallets.Some? {
      ProvisionsSuffice(config, |customers|, snapshot, wallets.value, treasury);
    }
  }

  /** Every customer's balance is what the rows record for it. */
  ghost predicate CustomersAccounted(d: Dataset)
    reads d.wallets
  {
    forall w | w in d.wallets :: w.balance == RowNet(d.rows, w.id)
  }

  /** Every treasury is a copy of its snapshot moved by what the rows record. */
  ghost predicate TreasuriesAccounted(d: Dataset, snapshot: seq<SeedWallet>)
    reads snapshot, d.treasury.Values
  {
    forall w | w in snapshot ::
      && w.currency in d.treasury
      && var t := d.treasury[w.currency];
         t != w && t.id == w.id && t.balance == w.balance + RowNet(d.rows, w.id)
  }

  /** No treasury has been overdrawn. */
  ghost predicate TreasuriesHold(d: Dataset, snapshot: seq<SeedWallet>)
    reads snapshot, d.treasury.Values
  {
    forall w | w in snapshot && w.currency in d.treasury && w.balance >= 0 :: d.treasury[w.currency].balance >= 0
  }

  /**
    For any seed, customers and configuration: every customer balance equals the net of its ledger rows, every
    treasury balance its start plus that net, every (transaction, currency) group nets to zero, the rows are the
    funding, the completed remittances' legs in order and the top-ups, and, if no account or configured currency is
    listed twice, there is one wallet per account and currency. With a small jitter no customer's balance is
    negative, and with one-sided tiers as well no treasury is overdrawn. The method may write nothing that existed
    before, so the caller's treasury snapshot is untouched. None where the program throws, which a well-provisioned
    configuration rules out.
  */
  method GenerateDataset(config: Config, seed: int, customers: seq<Customer>, snapshot: seq<SeedWallet>, firstId: nat)
    returns (r: Option<Dataset>, ghost funding: seq<Row>, ghost topUps: seq<Row>)
    requires OnePerCurrencyAndId(snapshot)
    requires forall w | w in snapshot :: w.id < firstId
    ensures WellProvisioned(config, |customers|, snapshot) ==> r.Some?
    ensures r.Some? ==>
              (exists e :: e in config.currencyDistribution && e.weight > 0.0) && PoolSuffices(config, |customers|)
    ensures r.Some? ==>
              && CustomersAccounted(r.value) && TreasuriesAccounted(r.value, snapshot) && GroupsBalanced(r.value.rows)
              && r.value.rows == funding + SeedRemittances.AllRows(r.value.remittances, r.value.treasury) + topUps
    ensures r.Some? && SeedRemittances.SmallJitter(config) ==>
              && (forall w | w in r.value.wallets :: w.balance >= 0)
              && (OneSided(config) ==> TreasuriesHold(r.value, snapshot))
    ensures (&& r.Some?
             && SeedWallets.DistinctAccounts(customers)
             && SeedWallets.DistinctValues(config.currencyDistribution)) ==>
              SeedWallets.OnePerCurrency(r.value.wallets)
  {
    var rng, treasury, wallets := Prepare(config, seed, customers, snapshot, firstId);
    if wallets.None? {
      return None, [], [];
    }
    ghost var all := (set w | w in wallets.value) + treasury.Values;
    r, funding, topUps := RunGenerators(config, rng, customers, wallets.value, treasury, all);
  }
}
