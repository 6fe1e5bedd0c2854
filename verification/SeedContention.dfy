/** The shared pool of the high-contention scenario. */
module SeedContention {
  import opened Wrappers
  import opened SeedBook
  import opened SeedRng
  import opened SeedFunding

  datatype Intent = Intent(sender: nat, senderCurrency: string, recipient: nat, recipientCurrency: string, amount: int,
                           key: nat)

  function TopUp(target: int, treasuryBalance: int): int {
    var affordable := (treasuryBalance as real * 0.5).Floor;
    if target <= affordable then target else affordable
  }

  /** Every row moves something, and no more than the target. */
  ghost predicate NoneBeyond(rows: seq<Row>, target: int) {
    forall row | row in rows :: 0 < row.leg.amount <= target
  }

  /** Tops up one customer's wallets from the treasuries; a currency without a treasury is skipped. */
  method TopUpCustomer(rng: DeterministicRng, wallets: seq<SeedWallet>, treasury: map<string, SeedWallet>, target: int,
                       ghost all: set<SeedWallet>)
    returns (rows: seq<Row>)
    requires DistinctIds(all) && treasury.Values <= all
    requires forall w | w in wallets :: w in all
    requires TreasuryApart(treasury, set w | w in wallets)
    modifies rng, all
    ensures Moved(all, rows) && NoneSinks(all) && GroupsBalanced(rows) && NoneBeyond(rows, target)
    ensures rng.issued >= old(rng.issued)
  {
    rows := [];
    for i := 0 to |wallets|
      invariant Moved(all, rows) && NoneSinks(all) && GroupsBalanced(rows) && NoneBeyond(rows, target)
      invariant rng.issued >= old(rng.issued)
    {
      var wallet := wallets[i];
      if wallet.currency !in treasury {
        continue;
      }
      var source := treasury[wallet.currency];
      var amount := TopUp(target, source.balance);
      if amount <= 0 {
        continue;
      }
      rows := PostTransfer(rng, wallet.currency, source, wallet, amount, rows, all);
    }
  }

  /** Another member of the pool, or none after five unlucky draws. */
  method PickDifferentCustomer(rng: DeterministicRng, pool: seq<Customer>, excluded: nat) returns (r: Option<Customer>)
    requires pool != []
    modifies rng`state
    ensures r.Some? ==> r.value in pool && r.value.accountId != excluded
  {
    for attempt := 0 to 5 {
      var i := rng.Pick(|pool|);
      if pool[i.value].accountId != excluded {
        return Some(pool[i.value]);
      }
    }
    return None;
  }

  predicate InPool(pool: seq<Customer>, account: nat) {
    exists i :: 0 <= i < |pool| && pool[i].accountId == account
  }

  ghost predicate HoldsCurrency(walletsByAccount: map<nat, seq<SeedWallet>>, account: nat, code: string) {
    account in walletsByAccount && exists w :: w in walletsByAccount[account] && w.currency == code
  }

  /** Candidate requests between two different members of the pool. */
  method GenerateIntents(config: Config, rng: DeterministicRng, pool: seq<Customer>,
                         walletsByAccount: map<nat, seq<SeedWallet>>)
    returns (intents: seq<Intent>)
    requires pool != []
    modifies rng
    ensures forall x | x in intents :: InPool(pool, x.sender) && InPool(pool, x.recipient) && x.sender != x.recipient
    ensures forall x | x in intents ::
              HoldsCurrency(walletsByAccount, x.sender, x.senderCurrency)
                && HoldsCurrency(walletsByAccount, x.recipient, x.recipientCurrency)
    ensures config.contentionAmount.min <= config.contentionAmount.max ==>
              forall x | x in intents :: config.contentionAmount.min <= x.amount <= config.contentionAmount.max
    ensures rng.issued >= old(rng.issued)
  {
    intents := [];
    var i := 0;
    while i < config.contentionIntents
      invariant forall x | x in intents ::
                  InPool(pool, x.sender) && InPool(pool, x.recipient) && x.sender != x.recipient
      invariant forall x | x in intents ::
                  HoldsCurrency(walletsByAccount, x.sender, x.senderCurrency)
                    && HoldsCurrency(walletsByAccount, x.recipient, x.recipientCurrency)
      invariant config.contentionAmount.min <= config.contentionAmount.max ==>
                  forall x | x in intents :: config.contentionAmount.min <= x.amount <= config.contentionAmount.max
      invariant rng.issued >= old(rng.issued)
    {
      i := i + 1;
      var s := rng.Pick(|pool|);
      var sender := pool[s.value];
      var recipient := PickDifferentCustomer(rng, pool, sender.accountId);
      if recipient.None? || sender.accountId !in walletsByAccount || recipient.value.accountId !in walletsByAccount {
        continue;
      }
      var from, to := walletsByAccount[sender.accountId], walletsByAccount[recipient.value.accountId];
      if from == [] || to == [] {
        continue;
      }
      var f := rng.Pick(|from|);
      var t := rng.Pick(|to|);
      var amount := rng.NextInt(config.contentionAmount.min, config.contentionAmount.max);
      var key := rng.Uuid();
      var intent := Intent(sender.accountId, from[f.value].currency, recipient.value.accountId, to[t.value].currency,
                           amount, key);
      intents := intents + [intent];
    }
  }

  /** How many customers share the pool; a negative setting counts from the end. */
  function PoolSize(shared: int, customers: nat): (n: nat)
    ensures n <= customers
    ensures 0 <= shared ==> n == if shared < customers then shared else customers
  {
    if shared >= customers then customers
    else if shared >= 0 then shared
    else if customers + shared >= 0 then customers + shared
    else 0
  }

  /** The pool's top-ups; like funding, each is a real posting that no treasury goes negative for. */
  method BuildContentionPool(config: Config, rng: DeterministicRng, customers: seq<Customer>,
                             walletsByAccount: map<nat, seq<SeedWallet>>, treasury: map<string, SeedWallet>,
                             ghost all: set<SeedWallet>)
    returns (pool: seq<Customer>, rows: seq<Row>)
    requires DistinctIds(all) && treasury.Values <= all
    requires forall account | account in walletsByAccount ::
               forall w | w in walletsByAccount[account] :: w in all && w !in treasury.Values
    requires forall code | code in treasury :: treasury[code].currency == code
    modifies rng, all
    ensures pool == customers[..PoolSize(config.contentionSharedAccounts, |customers|)]
    ensures Moved(all, rows) && NoneSinks(all) && GroupsBalanced(rows)
    ensures NoneBeyond(rows, config.contentionIntents * config.contentionAmount.max * 2)
    ensures rng.issued >= old(rng.issued)
  {
    pool := customers[..PoolSize(config.contentionSharedAccounts, |customers|)];
    var target := config.contentionIntents * config.contentionAmount.max * 2;
    rows := [];
    for i := 0 to |pool|
      invariant Moved(all, rows) && NoneSinks(all) && GroupsBalanced(rows) && NoneBeyond(rows, target)
      invariant rng.issued >= old(rng.issued)
    {
      var account := pool[i].accountId;
      if account in walletsByAccount {
        var added := TopUpCustomer(rng, walletsByAccount[account], treasury, target, all);
        AppendRows(rows, added);
        rows := rows + added;
      }
    }
  }
}
