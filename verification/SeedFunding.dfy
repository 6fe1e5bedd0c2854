/** Wallets, configuration and ledger rows of the seed pipeline. Wallet references are shared and updated in place. */
module SeedBook {
  import opened Wrappers
  import opened Sums
  import opened LedgerRows
  import opened SeedRng

  datatype Range = Range(min: int, max: int)

  datatype Tier = Zero | Low | Medium | High

  datatype Profile = Heavy | Normal | Occasional

  datatype Status = Completed | RejectedCompliance | RejectedInsufficientFunds | Failed

  datatype Config = Config(
    currencyDistribution: seq<Weighted<string>>,
    statusDistribution: seq<Weighted<Status>>,
    walletsPerCustomer: Range,
    remittanceCount: Profile -> Range,
    tierDistribution: seq<Weighted<Tier>>,
    tierRange: Tier -> Range,
    fxJitter: real,
    highContention: bool,
    contentionSharedAccounts: int,
    contentionIntents: int,
    contentionAmount: Range)

  /** The values a range can give; a range the wrong way round gives what lies between. */
  function Least(r: Range): int { if r.min <= r.max then r.min else r.max + 1 }

  function Greatest(r: Range): int { if r.min <= r.max then r.max else r.min }

  /** No tier that can be drawn can ask for less than nothing, or none can ask for more. */
  ghost predicate OneSided(config: Config) {
    var tiers := config.tierDistribution;
    || (forall i: nat | i < |tiers| && Drawable(tiers, i) && tiers[i].value != Zero ::
          Least(config.tierRange(tiers[i].value)) >= 0)
    || (forall i: nat | i < |tiers| && Drawable(tiers, i) && tiers[i].value != Zero ::
          Greatest(config.tierRange(tiers[i].value)) <= 0)
  }

  datatype Customer = Customer(accountId: nat, profile: Profile, kycVerified: bool)

  class SeedWallet {
    const id: nat
    const accountId: nat
    const currency: string
    var balance: int

    constructor (id: nat, accountId: nat, currency: string, balance: int)
      ensures this.id == id && this.accountId == accountId && this.currency == currency && this.balance == balance
    {
      this.id, this.accountId, this.currency, this.balance := id, accountId, currency, balance;
    }
  }

  ghost predicate DistinctIds(ws: set<SeedWallet>) {
    forall v, w | v in ws && w in ws :: v.id == w.id ==> v == w
  }

  /** The wallets with this key, in order. */
  function Having<K(==)>(ws: seq<SeedWallet>, key: SeedWallet -> K, k: K): seq<SeedWallet> {
    if ws == [] then []
    else
      var n := |ws| - 1;
      Having(ws[..n], key, k) + if key(ws[n]) == k then [ws[n]] else []
  }

  /** The keys of these wallets, in order of first appearance. */
  function KeysOf<K(==)>(ws: seq<SeedWallet>, key: SeedWallet -> K): seq<K> {
    if ws == [] then []
    else
      var n := |ws| - 1;
      KeysOf(ws[..n], key) + if key(ws[n]) in KeysOf(ws[..n], key) then [] else [key(ws[n])]
  }

  lemma {:induction false} HavingMembers<K>(ws: seq<SeedWallet>, key: SeedWallet -> K, k: K)
    ensures forall w :: w in Having(ws, key, k) <==> w in ws && key(w) == k
  {
    if ws == [] {
    } else {
      var n := |ws| - 1;
      HavingMembers(ws[..n], key, k);
      assert ws == ws[..n] + [ws[n]];
    }
  }

  lemma {:induction false} KeysOfMembers<K>(ws: seq<SeedWallet>, key: SeedWallet -> K)
    ensures forall k :: k in KeysOf(ws, key) <==> exists w :: w in ws && key(w) == k
    ensures forall i, j :: 0 <= i < j < |KeysOf(ws, key)| ==> KeysOf(ws, key)[i] != KeysOf(ws, key)[j]
  {
    if ws == [] {
    } else {
      var n := |ws| - 1;
      KeysOfMembers(ws[..n], key);
      assert ws == ws[..n] + [ws[n]];
    }
  }

  function ByCurrency(): SeedWallet -> string { (w: SeedWallet) => w.currency }

  function ByAccount(): SeedWallet -> nat { (w: SeedWallet) => w.accountId }

  /** No balance that was not negative has become so. */
  twostate predicate NoneSinks(ws: set<SeedWallet>)
    reads ws
  {
    forall w | w in ws && old(w.balance) >= 0 :: w.balance >= 0
  }

  /** The treasury of each currency is a wallet of that currency, and none of the customers'. */
  ghost predicate TreasuryApart(treasury: map<string, SeedWallet>, customers: set<SeedWallet>) {
    forall code | code in treasury :: treasury[code].currency == code && treasury[code] !in customers
  }

  // ---- Rows

  datatype Row = Row(id: nat, leg: RowLeg, transaction: nat)

  /** What a row does to a wallet: direction 1 takes, any other direction adds. */
  function LegFor(wallet: nat): RowLeg -> int {
    (leg: RowLeg) => if leg.wallet != wallet then 0 else if leg.direction == 1 then -leg.amount else leg.amount
  }

  function RowFor(wallet: nat): Row -> int { (row: Row) => LegFor(wallet)(row.leg) }

  function RowInGroup(transaction: nat, code: string): Row -> int {
    (row: Row) => if row.transaction == transaction then InCurrency(code)(row.leg) else 0
  }

  function LegsNet(legs: seq<RowLeg>, wallet: nat): int { Sum(legs, LegFor(wallet)) }

  function RowNet(rows: seq<Row>, wallet: nat): int { Sum(rows, RowFor(wallet)) }

  /** Every (transaction, currency) group of rows nets to zero. */
  ghost predicate GroupsBalanced(rows: seq<Row>) {
    forall transaction, code :: Sum(rows, RowInGroup(transaction, code)) == 0
  }

  function Posted(legs: seq<RowLeg>, transaction: nat, firstId: nat): (rows: seq<Row>)
    ensures |rows| == |legs| && forall i :: 0 <= i < |legs| ==> rows[i] == Row(firstId + i, legs[i], transaction)
  {
    seq(|legs|, i requires 0 <= i < |legs| => Row(firstId + i, legs[i], transaction))
  }

  lemma PostingAddsLegs(rows: seq<Row>, legs: seq<RowLeg>, transaction: nat, firstId: nat)
    ensures forall w :: RowNet(rows + Posted(legs, transaction, firstId), w) == RowNet(rows, w) + LegsNet(legs, w)
    ensures GroupsBalanced(rows) && Balanced(legs) ==> GroupsBalanced(rows + Posted(legs, transaction, firstId))
  {
    var posted := Posted(legs, transaction, firstId);
    forall w ensures RowNet(rows + posted, w) == RowNet(rows, w) + LegsNet(legs, w) {
      Concat(rows, posted, RowFor(w));
      Pointwise(posted, RowFor(w), legs, LegFor(w));
    }
    if GroupsBalanced(rows) && Balanced(legs) {
      forall t, code ensures Sum(rows + posted, RowInGroup(t, code)) == 0 {
        Concat(rows, posted, RowInGroup(t, code));
        if t == transaction {
          Pointwise(posted, RowInGroup(t, code), legs, InCurrency(code));
          assert Net(legs, code) == 0;
        } else {
          OtherGroups(posted, t, code);
        }
      }
    }
  }

  /** The same for rows that stand alone. */
  lemma PostingAlone(legs: seq<RowLeg>, transaction: nat, firstId: nat)
    ensures forall w :: RowNet(Posted(legs, transaction, firstId), w) == LegsNet(legs, w)
    ensures Balanced(legs) ==> GroupsBalanced(Posted(legs, transaction, firstId))
  {
    var none: seq<Row> := [];
    PostingAddsLegs(none, legs, transaction, firstId);
    assert none + Posted(legs, transaction, firstId) == Posted(legs, transaction, firstId);
  }

  lemma {:induction false} OtherGroups(rows: seq<Row>, transaction: nat, code: string)
    requires forall i :: 0 <= i < |rows| ==> rows[i].transaction != transaction
    ensures Sum(rows, RowInGroup(transaction, code)) == 0
  {
    if rows == [] {
    } else {
      var n := |rows| - 1;
      assert forall i :: 0 <= i < n ==> rows[..n][i] == rows[i];
      OtherGroups(rows[..n], transaction, code);
    }
  }

  lemma AppendRows(a: seq<Row>, b: seq<Row>)
    ensures forall w :: RowNet(a + b, w) == RowNet(a, w) + RowNet(b, w)
    ensures GroupsBalanced(a) && GroupsBalanced(b) ==> GroupsBalanced(a + b)
  {
    forall w ensures RowNet(a + b, w) == RowNet(a, w) + RowNet(b, w) {
      Concat(a, b, RowFor(w));
    }
    forall t, code
      ensures Sum(a + b, RowInGroup(t, code)) == Sum(a, RowInGroup(t, code)) + Sum(b, RowInGroup(t, code))
    {
      Concat(a, b, RowInGroup(t, code));
    }
  }

  /** A debit and a credit of the same amount. */
  function Transfer(from: nat, to: nat, code: string, amount: int): seq<RowLeg> {
    [RowLeg(from, code, 1, amount), RowLeg(to, code, 2, amount)]
  }

  function When(b: bool, n: int): int { if b then n else 0 }

  lemma TransferNets(from: nat, to: nat, code: string, amount: int)
    ensures Balanced(Transfer(from, to, code, amount))
    ensures forall w :: LegsNet(Transfer(from, to, code, amount), w) == When(w == from, -amount) + When(w == to, amount)
  {
    var legs := Transfer(from, to, code, amount);
    assert legs == [legs[0]] + [legs[1]];
    forall w ensures LegsNet(legs, w) == When(w == from, -amount) + When(w == to, amount) {
      Push([legs[0]], legs[1], LegFor(w));
    }
    forall c ensures Net(legs, c) == 0 {
      Push([legs[0]], legs[1], InCurrency(c));
    }
  }

  /** Since the old state, every balance moved by exactly what these rows record for its wallet. */
  twostate predicate Moved(ws: set<SeedWallet>, rows: seq<Row>)
    reads ws
  {
    forall w | w in ws :: w.balance == old(w.balance) + RowNet(rows, w.id)
  }

  /** Draws the row ids of a posting. */
  method DrawIds(rng: DeterministicRng, n: nat) returns (firstId: nat)
    modifies rng
    ensures firstId == old(rng.issued) && rng.issued == old(rng.issued) + n
  {
    firstId := rng.issued;
    for i := 0 to n
      invariant rng.issued == firstId + i
    {
      var id := rng.Uuid();
    }
  }
}

/** Initial funding: sampled requests, scaled to what the treasury can afford, each a real posting. */
module SeedFunding {
  import opened Wrappers
  import opened Sums
  import opened LedgerRows
  import opened SeedBook
  import opened SeedRng

  const FUNDING_SAFETY_FACTOR := 0.6

  function Budget(balance: int): int { (balance as real * FUNDING_SAFETY_FACTOR).Floor }

  function Scale(rawTotal: int, budget: int): real {
    if rawTotal > budget && rawTotal > 0 then budget as real / rawTotal as real else 1.0
  }

  lemma BudgetIsAffordable(balance: nat)
    ensures 0 <= Budget(balance) <= balance
  {
  }

  function Scaled(amount: int, scale: real): int { (amount as real * scale).Floor }

  /** One scaled request, rounded down; nothing is posted for a share that is not positive. */
  function Share(amount: int, scale: real): nat {
    if Scaled(amount, scale) <= 0 then 0 else Scaled(amount, scale)
  }

  function ShareAt(scale: real): int -> int { (amount: int) => Share(amount, scale) }

  function Requested(): int -> int { (amount: int) => amount }

  lemma {:induction false} SharesAtMostScaledTotal(amounts: seq<int>, scale: real)
    requires scale >= 0.0 && forall i :: 0 <= i < |amounts| ==> amounts[i] >= 0
    ensures 0 <= Sum(amounts, ShareAt(scale))
    ensures Sum(amounts, ShareAt(scale)) as real <= Sum(amounts, Requested()) as real * scale
  {
    if amounts == [] {
    } else {
      var n := |amounts| - 1;
      var init, last := amounts[..n], amounts[n];
      assert forall i :: 0 <= i < n ==> init[i] == amounts[i];
      SharesAtMostScaledTotal(init, scale);
      var before := Sum(init, Requested()) as real;
      assert last as real * scale >= 0.0;
      assert (before + last as real) * scale == before * scale + last as real * scale;
      assert Sum(amounts, Requested()) as real == before + last as real;
    }
  }

  /** Whatever was requested, the shares of one currency add up to no more than its budget. */
  lemma SharesFitBudget(amounts: seq<int>, balance: int)
    requires balance >= 0 && forall i :: 0 <= i < |amounts| ==> amounts[i] >= 0
    ensures 0 <= Sum(amounts, ShareAt(Scale(Sum(amounts, Requested()), Budget(balance)))) <= Budget(balance) <= balance
  {
    BudgetIsAffordable(balance);
    RequestsAreNonNegative(amounts);
    var rawTotal, budget := Sum(amounts, Requested()), Budget(balance);
    var scale := Scale(rawTotal, budget);
    ScaledTotalFits(rawTotal, budget);
    SharesAtMostScaledTotal(amounts, scale);
  }

  lemma {:induction false} RequestsAreNonNegative(amounts: seq<int>)
    requires forall i :: 0 <= i < |amounts| ==> amounts[i] >= 0
    ensures 0 <= Sum(amounts, Requested())
  {
    if amounts == [] {
    } else {
      assert forall i :: 0 <= i < |amounts| - 1 ==> amounts[..|amounts| - 1][i] == amounts[i];
      RequestsAreNonNegative(amounts[..|amounts| - 1]);
    }
  }

  lemma ScaledTotalFits(rawTotal: int, budget: int)
    requires 0 <= budget
    ensures 0.0 <= Scale(rawTotal, budget)
    ensures rawTotal >= 0 ==> rawTotal as real * Scale(rawTotal, budget) <= budget as real
  {
    if rawTotal > budget && rawTotal > 0 {
      var b, t := budget as real, rawTotal as real;
      assert t * (b / t) == b;
    }
  }

  // ---- Negative requests

  function Surplus(): int -> int { (amount: int) => if amount > 0 then amount else 0 }

  function Deficit(): int -> int { (amount: int) => if amount < 0 then -amount else 0 }

  function LeftOver(scale: real): int -> real {
    (amount: int) => if amount > 0 then amount as real * scale - Scaled(amount, scale) as real else 0.0
  }

  /** What rounding the positive shares down leaves over. */
  function RoundedOff(amounts: seq<int>, scale: real): real { RealSum(amounts, LeftOver(scale)) }

  lemma {:induction false} SurplusLessDeficit(amounts: seq<int>)
    ensures Sum(amounts, Requested()) == Sum(amounts, Surplus()) - Sum(amounts, Deficit())
  {
    if amounts == [] {
    } else {
      SurplusLessDeficit(amounts[..|amounts| - 1]);
    }
  }

  lemma ShareOfOne(amount: int, scale: real)
    requires scale >= 0.0
    ensures scale == 1.0 ==> Share(amount, scale) == Surplus()(amount)
    ensures Splits(amount, ShareAt(scale), LeftOver(scale), Surplus(), scale)
  {
    if amount > 0 {
      assert amount as real * scale >= 0.0;
    } else {
      assert amount as real * scale <= 0.0;
    }
  }

  lemma SharesPlusRoundedOff(amounts: seq<int>, scale: real)
    requires scale >= 0.0
    ensures Sum(amounts, ShareAt(scale)) as real + RoundedOff(amounts, scale) == Sum(amounts, Surplus()) as real * scale
  {
    forall i | 0 <= i < |amounts| ensures Splits(amounts[i], ShareAt(scale), LeftOver(scale), Surplus(), scale) {
      ShareOfOne(amounts[i], scale);
    }
    SplitTerms(amounts, ShareAt(scale), LeftOver(scale), Surplus(), scale);
  }

  lemma UnscaledShares(amounts: seq<int>)
    ensures Sum(amounts, ShareAt(1.0)) == Sum(amounts, Surplus())
  {
    forall i | 0 <= i < |amounts| ensures ShareAt(1.0)(amounts[i]) == Surplus()(amounts[i]) {
      ShareOfOne(amounts[i], 1.0);
    }
    Pointwise(amounts, ShareAt(1.0), amounts, Surplus());
  }

  /** The shares of these requests stay within the budget. */
  predicate Fits(amounts: seq<int>, balance: nat) {
    Sum(amounts, ShareAt(Scale(Sum(amounts, Requested()), Budget(balance)))) <= Budget(balance)
  }

  /** The rest is at least what the negative requests take off the scaled total. */
  predicate RoundingCovers(amounts: seq<int>, scale: real) {
    RoundedOff(amounts, scale) >= Sum(amounts, Deficit()) as real * scale
  }

  /**
    Exactly when requests of either sign fit. Left alone, their positive part must; scaled down, rounding must
    leave over at least what the negative part took off the total.
  */
  lemma SharesFitIff(amounts: seq<int>, balance: nat)
    ensures var rawTotal, budget := Sum(amounts, Requested()), Budget(balance);
            Fits(amounts, balance) <==>
              if rawTotal <= budget then Sum(amounts, Surplus()) <= budget
              else RoundingCovers(amounts, Scale(rawTotal, budget))
  {
    BudgetIsAffordable(balance);
    var rawTotal, budget := Sum(amounts, Requested()), Budget(balance);
    if rawTotal <= budget {
      assert Scale(rawTotal, budget) == 1.0;
      UnscaledShares(amounts);
    } else {
      ScaleIsExact(rawTotal, budget);
      ScaledSharesFitIff(amounts, rawTotal, budget, Scale(rawTotal, budget));
    }
  }

  lemma ScaleIsExact(rawTotal: int, budget: int)
    requires 0 <= budget < rawTotal
    ensures Scale(rawTotal, budget) >= 0.0 && rawTotal as real * Scale(rawTotal, budget) == budget as real
  {
    var b, t := budget as real, rawTotal as real;
    assert t * (b / t) == b;
  }

  lemma ScaledSharesFitIff(amounts: seq<int>, rawTotal: int, budget: int, scale: real)
    requires rawTotal == Sum(amounts, Requested()) && scale >= 0.0 && rawTotal as real * scale == budget as real
    ensures Sum(amounts, ShareAt(scale)) <= budget <==> RoundingCovers(amounts, scale)
  {
    SharesPlusRoundedOff(amounts, scale);
    SurplusLessDeficit(amounts);
    var shares, surplus, deficit := Sum(amounts, ShareAt(scale)), Sum(amounts, Surplus()), Sum(amounts, Deficit());
    var roundedOff := RoundedOff(amounts, scale);
    ScaledDownFits(shares, roundedOff, rawTotal, surplus, deficit, budget, scale);
    assert RoundingCovers(amounts, scale) <==> roundedOff >= deficit as real * scale;
  }

  lemma ScaledDownFits(shares: int, roundedOff: real, raw: int, surplus: int, deficit: int, budget: int, scale: real)
    requires shares as real + roundedOff == surplus as real * scale && raw == surplus - deficit
    requires raw as real * scale == budget as real
    ensures shares <= budget <==> roundedOff >= deficit as real * scale
  {
    assert (raw as real + deficit as real) * scale == raw as real * scale + deficit as real * scale;
    assert raw as real + deficit as real == surplus as real;
  }

  /** A request that sampling can give. */
  ghost predicate Possible(config: Config, amount: int) {
    exists i: nat ::
      && i < |config.tierDistribution| && Drawable(config.tierDistribution, i)
      && GivenBy(config, config.tierDistribution[i].value, amount)
  }

  predicate GivenBy(config: Config, tier: Tier, amount: int) {
    if tier == Zero then amount == 0 else Least(config.tierRange(tier)) <= amount <= Greatest(config.tierRange(tier))
  }

  ghost predicate AllPossible(config: Config, amounts: seq<int>) {
    forall a | a in amounts :: Possible(config, a)
  }

  /** A currency overspends on one positive request and enough copies of a negative one, whatever they are. */
  lemma NegativeRequestsOverspend(positive: int, negative: int)
    requires negative < 0 < positive
    ensures !Fits([positive] + Repeat(negative, positive), 0)
  {
    var amounts := [positive] + Repeat(negative, positive);
    SumOfRepeated(negative, positive);
    Concat([positive], Repeat(negative, positive), Requested());
    Concat([positive], Repeat(negative, positive), Surplus());
    assert [positive] == [] + [positive];
    Push([], positive, Requested());
    Push([], positive, Surplus());
    assert negative * positive <= -positive;
    SharesFitIff(amounts, 0);
  }

  lemma {:induction false} SumOfRepeated(amount: int, n: nat)
    requires amount < 0
    ensures Sum(Repeat(amount, n), Requested()) == amount * n
    ensures Sum(Repeat(amount, n), Surplus()) == 0
  {
    if n == 0 {
    } else {
      SumOfRepeated(amount, n - 1);
      assert Repeat(amount, n) == Repeat(amount, n - 1) + [amount];
      Push(Repeat(amount, n - 1), amount, Requested());
      Push(Repeat(amount, n - 1), amount, Surplus());
    }
  }

  lemma {:induction false} NothingPositive(amounts: seq<int>)
    requires forall a | a in amounts :: a <= 0
    ensures Sum(amounts, Surplus()) == 0 && Sum(amounts, Requested()) <= 0
  {
    if amounts == [] {
    } else {
      var n := |amounts| - 1;
      assert amounts[n] in amounts && forall a | a in amounts[..n] :: a in amounts;
      NothingPositive(amounts[..n]);
    }
  }

  /** A one-sided configuration keeps every currency within its budget, whatever is sampled. */
  lemma OneSidedFits(config: Config, amounts: seq<int>, balance: nat)
    requires OneSided(config) && AllPossible(config, amounts)
    ensures Fits(amounts, balance)
  {
    var tiers := config.tierDistribution;
    if forall i: nat | i < |tiers| && Drawable(tiers, i) && tiers[i].value != Zero ::
         Least(config.tierRange(tiers[i].value)) >= 0 {
      forall i | 0 <= i < |amounts| ensures amounts[i] >= 0 {
        assert Possible(config, amounts[i]);
      }
      SharesFitBudget(amounts, balance);
    } else {
      forall a | a in amounts ensures a <= 0 {
        assert Possible(config, a);
      }
      NothingPositive(amounts);
      BudgetIsAffordable(balance);
      SharesFitIff(amounts, balance);
    }
  }

  /** And only a one-sided configuration does. */
  lemma FundingFitsAlwaysIff(config: Config)
    ensures (forall amounts, balance: nat | AllPossible(config, amounts) :: Fits(amounts, balance))
       <==> OneSided(config)
  {
    if OneSided(config) {
      forall amounts, balance: nat | AllPossible(config, amounts) ensures Fits(amounts, balance) {
        OneSidedFits(config, amounts, balance);
      }
    } else {
      var tiers := config.tierDistribution;
      var low: nat :| low < |tiers| && Drawable(tiers, low) && tiers[low].value != Zero
                      && Least(config.tierRange(tiers[low].value)) < 0;
      var high: nat :| high < |tiers| && Drawable(tiers, high) && tiers[high].value != Zero
                       && Greatest(config.tierRange(tiers[high].value)) > 0;
      var negative := Least(config.tierRange(tiers[low].value));
      var positive := Greatest(config.tierRange(tiers[high].value));
      assert GivenBy(config, tiers[low].value, negative) && GivenBy(config, tiers[high].value, positive);
      assert Possible(config, negative) && Possible(config, positive);
      NegativeRequestsOverspend(positive, negative);
      assert AllPossible(config, [positive] + Repeat(negative, positive));
    }
  }

  // ---- Posting

  method SampleTierAmount(config: Config, rng: DeterministicRng) returns (r: Option<int>)
    modifies rng`state
    ensures r.Some? <==> Cumulative(config.tierDistribution, |config.tierDistribution|) > 0.0
    ensures r.Some? ==> Possible(config, r.value)
  {
    var picked := rng.WeightedPick(config.tierDistribution);
    if picked.None? {
      return None;
    }
    var tier := config.tierDistribution[picked.value].value;
    var amount := 0;
    if tier != Zero {
      var range := config.tierRange(tier);
      amount := rng.NextInt(range.min, range.max);
    }
    assert Drawable(config.tierDistribution, picked.value);
    assert GivenBy(config, config.tierDistribution[picked.value].value, amount);
    return Some(amount);
  }

  method SampleRequests(config: Config, rng: DeterministicRng, n: nat) returns (r: Option<seq<int>>)
    modifies rng`state
    ensures r.Some? <==> n == 0 || Cumulative(config.tierDistribution, |config.tierDistribution|) > 0.0
    ensures r.Some? ==> |r.value| == n && AllPossible(config, r.value)
  {
    var amounts: seq<int> := [];
    for i := 0 to n
      invariant |amounts| == i && AllPossible(config, amounts)
      invariant i > 0 ==> Cumulative(config.tierDistribution, |config.tierDistribution|) > 0.0
    {
      var amount := SampleTierAmount(config, rng);
      if amount.None? {
        return None;
      }
      amounts := amounts + [amount.value];
    }
    return Some(amounts);
  }

  method AddUp(amounts: seq<int>) returns (rawTotal: int)
    ensures rawTotal == Sum(amounts, Requested())
  {
    rawTotal := 0;
    for i := 0 to |amounts|
      invariant rawTotal == Sum(amounts[..i], Requested())
    {
      assert amounts[..i + 1] == amounts[..i] + [amounts[i]];
      Push(amounts[..i], amounts[i], Requested());
      rawTotal := rawTotal + amounts[i];
    }
    assert amounts[..|amounts|] == amounts;
  }

  /** Posts one transfer from the treasury to a wallet and moves both balances. */
  method PostTransfer(rng: DeterministicRng, code: string, treasury: SeedWallet, wallet: SeedWallet, amount: int,
                      entries: seq<Row>, ghost all: set<SeedWallet>)
    returns (entries': seq<Row>)
    requires DistinctIds(all) && treasury in all && wallet in all && wallet != treasury
    modifies rng, treasury`balance, wallet`balance
    ensures treasury.balance == old(treasury.balance) - amount && wallet.balance == old(wallet.balance) + amount
    ensures forall w | w in all :: RowNet(entries', w.id) - RowNet(entries, w.id) == w.balance - old(w.balance)
    ensures entries'
         == entries + Posted(Transfer(treasury.id, wallet.id, code, amount), old(rng.issued), old(rng.issued) + 1)
    ensures GroupsBalanced(entries) ==> GroupsBalanced(entries')
    ensures rng.issued == old(rng.issued) + 3
  {
    var transactionId := rng.Uuid();
    var legs := Transfer(treasury.id, wallet.id, code, amount);
    TransferNets(treasury.id, wallet.id, code, amount);
    var balanced := AssertBalancedPerCurrency(legs);
    var firstId := DrawIds(rng, 2);
    PostingAddsLegs(entries, legs, transactionId, firstId);
    entries' := entries + Posted(legs, transactionId, firstId);
    treasury.balance := treasury.balance - amount;
    wallet.balance := wallet.balance + amount;
  }

  lemma {:induction false} SharesAreNotNegative(amounts: seq<int>, scale: real)
    ensures 0 <= Sum(amounts, ShareAt(scale))
  {
    if amounts == [] {
    } else {
      SharesAreNotNegative(amounts[..|amounts| - 1], scale);
    }
  }

  /**
    Funds the wallets of one currency, which only gain; a one-sided configuration keeps the treasury within its
    budget. None where the program throws.
  */
  method FundCurrency(config: Config, rng: DeterministicRng, code: string, wallets: seq<SeedWallet>,
                      treasury: SeedWallet, ghost all: set<SeedWallet>)
    returns (r: Option<seq<Row>>)
    requires DistinctIds(all) && treasury in all
    requires forall w | w in wallets :: w in all && w != treasury
    modifies rng, all
    ensures r.Some? ==> Moved(all, r.value) && GroupsBalanced(r.value)
    ensures OneSided(config) ==> WithinBudget(old(treasury.balance), treasury.balance)
    ensures OnlyGivenTo(wallets, treasury, all)
    ensures r.Some? <==> wallets == [] || Cumulative(config.tierDistribution, |config.tierDistribution|) > 0.0
    ensures rng.issued >= old(rng.issued)
  {
    SpendingNothingIsWithinBudget(treasury.balance);
    var requests := SampleRequests(config, rng, |wallets|);
    if requests.None? {
      return None;
    }
    var amounts := requests.value;
    var rawTotal := AddUp(amounts);
    var scale := Scale(rawTotal, Budget(treasury.balance));
    if OneSided(config) && treasury.balance >= 0 {
      OneSidedFits(config, amounts, treasury.balance);
      SharesAreNotNegative(amounts, scale);
    }
    var entries := PostShares(rng, code, wallets, amounts, scale, treasury, all);
    return Some(entries);
  }

  ghost predicate DistinctWallets(wallets: seq<SeedWallet>) {
    forall i, j :: 0 <= i < j < |wallets| ==> wallets[i] != wallets[j]
  }

  /** Every wallet has been given its share. */
  twostate predicate Given(wallets: seq<SeedWallet>, amounts: seq<int>, scale: real)
    requires |amounts| == |wallets|
    reads wallets
  {
    forall k | 0 <= k < |wallets| :: wallets[k].balance == old(wallets[k].balance) + Share(amounts[k], scale)
  }

  /** Nothing is taken from any customer, and nothing given to anyone else. */
  twostate predicate OnlyGivenTo(wallets: seq<SeedWallet>, treasury: SeedWallet, all: set<SeedWallet>)
    reads all
  {
    forall w | w in all && w != treasury ::
      w.balance >= old(w.balance) && (w !in wallets ==> w.balance == old(w.balance))
  }

  /** What one wallet receives of the first n shares. */
  ghost function Received(wallets: seq<SeedWallet>, amounts: seq<int>, scale: real, n: nat, w: SeedWallet): (r: int)
    requires n <= |wallets| == |amounts|
    ensures r >= 0 && (w !in wallets ==> r == 0)
  {
    if n == 0 then 0
    else
      Received(wallets, amounts, scale, n - 1, w) + if wallets[n - 1] == w then Share(amounts[n - 1], scale) else 0
  }

  /** A wallet that is listed once receives its own share, as soon as its turn has come. */
  lemma {:induction false} ReceivesOwnShare(wallets: seq<SeedWallet>, amounts: seq<int>, scale: real, n: nat, k: nat)
    requires n <= |wallets| == |amounts| && k < |wallets| && DistinctWallets(wallets)
    ensures Received(wallets, amounts, scale, n, wallets[k]) == if k < n then Share(amounts[k], scale) else 0
  {
    if n == 0 {
    } else {
      ReceivesOwnShare(wallets, amounts, scale, n - 1, k);
    }
  }

  /** Posts one share, unless it is not positive. */
  method PostShare(rng: DeterministicRng, code: string, wallet: SeedWallet, amount: int, scale: real,
                   treasury: SeedWallet, entries: seq<Row>, ghost all: set<SeedWallet>)
    returns (entries': seq<Row>)
    requires DistinctIds(all) && treasury in all && wallet in all && wallet != treasury
    modifies rng, treasury`balance, wallet`balance
    ensures treasury.balance == old(treasury.balance) - Share(amount, scale)
    ensures wallet.balance == old(wallet.balance) + Share(amount, scale)
    ensures forall w | w in all :: RowNet(entries', w.id) - RowNet(entries, w.id) == w.balance - old(w.balance)
    ensures GroupsBalanced(entries) ==> GroupsBalanced(entries')
    ensures rng.issued >= old(rng.issued)
  {
    var actual := Scaled(amount, scale);
    if actual <= 0 {
      return entries;
    }
    entries' := PostTransfer(rng, code, treasury, wallet, actual, entries, all);
  }

  /** Posts one share after another. */
  method PostShares(rng: DeterministicRng, code: string, wallets: seq<SeedWallet>, amounts: seq<int>, scale: real,
                    treasury: SeedWallet, ghost all: set<SeedWallet>)
    returns (entries: seq<Row>)
    requires DistinctIds(all) && treasury in all && |amounts| == |wallets|
    requires forall w | w in wallets :: w in all && w != treasury
    modifies rng, all
    ensures Moved(all, entries) && GroupsBalanced(entries)
    ensures treasury.balance == old(treasury.balance) - Sum(amounts, ShareAt(scale))
    ensures DistinctWallets(wallets) ==> Given(wallets, amounts, scale)
    ensures OnlyGivenTo(wallets, treasury, all)
    ensures rng.issued >= old(rng.issued)
  {
    entries := [];
    ghost var done: seq<int> := [];
    for i := 0 to |wallets|
      invariant done == amounts[..i]
      invariant Moved(all, entries) && GroupsBalanced(entries)
      invariant treasury.balance == old(treasury.balance) - Sum(done, ShareAt(scale))
      invariant forall w | w in all && w != treasury ::
                  w.balance == old(w.balance) + Received(wallets, amounts, scale, i, w)
      invariant rng.issued >= old(rng.issued)
    {
      Push(done, amounts[i], ShareAt(scale));
      done := done + [amounts[i]];
      assert wallets[i] in wallets;
      entries := PostShare(rng, code, wallets[i], amounts[i], scale, treasury, entries, all);
    }
    assert done == amounts;
    if DistinctWallets(wallets) {
      forall k | 0 <= k < |wallets|
        ensures Received(wallets, amounts, scale, |wallets|, wallets[k]) == Share(amounts[k], scale)
      {
        ReceivesOwnShare(wallets, amounts, scale, |wallets|, k);
      }
    }
  }

  /** The currencies in order of first appearance, which is the order of funding, and each one's wallets in order. */
  method GroupByCurrency(wallets: seq<SeedWallet>) returns (codes: seq<string>, groups: map<string, seq<SeedWallet>>)
    ensures codes == KeysOf(wallets, ByCurrency())
    ensures forall code :: code in codes <==> code in groups
    ensures forall code | code in groups :: groups[code] == Having(wallets, ByCurrency(), code)
  {
    codes, groups := [], map[];
    for i := 0 to |wallets|
      invariant codes == KeysOf(wallets[..i], ByCurrency())
      invariant forall code :: code in codes <==> code in groups
      invariant forall code :: Having(wallets[..i], ByCurrency(), code) == if code in groups then groups[code] else []
    {
      var w := wallets[i];
      assert wallets[..i + 1][..i] == wallets[..i];
      if w.currency in groups {
        groups := groups[w.currency := groups[w.currency] + [w]];
      } else {
        codes := codes + [w.currency];
        groups := groups[w.currency := [w]];
      }
    }
    assert wallets[..|wallets|] == wallets;
  }

  /** Every wallet has a treasury of its currency, and requests can be sampled if there is anyone to fund. */
  predicate CanFund(config: Config, wallets: seq<SeedWallet>, treasuryByCurrency: map<string, SeedWallet>) {
    && (forall w | w in wallets :: w.currency in treasuryByCurrency)
    && (wallets == [] || Cumulative(config.tierDistribution, |config.tierDistribution|) > 0.0)
  }

  lemma GroupsAreOfWallets(wallets: seq<SeedWallet>, codes: seq<string>, groups: map<string, seq<SeedWallet>>)
    requires codes == KeysOf(wallets, ByCurrency()) && forall code :: code in codes <==> code in groups
    requires forall code | code in groups :: groups[code] == Having(wallets, ByCurrency(), code)
    ensures forall i, j :: 0 <= i < j < |codes| ==> codes[i] != codes[j]
    ensures forall code | code in groups :: groups[code] != []
    ensures forall code | code in groups :: forall w :: w in groups[code] <==> w in wallets && w.currency == code
    ensures codes == [] <==> wallets == []
    ensures forall code | code in codes :: exists w :: w in wallets && w.currency == code
    ensures forall w | w in wallets :: w.currency in codes
  {
    KeysOfMembers(wallets, ByCurrency());
    forall code | code in groups
      ensures groups[code] != [] && forall w :: w in groups[code] <==> w in wallets && w.currency == code
    {
      HavingMembers(wallets, ByCurrency(), code);
      var w :| w in wallets && ByCurrency()(w) == code;
      assert w in groups[code];
    }
    forall code | code in codes ensures exists w :: w in wallets && w.currency == code {
      var w :| w in wallets && ByCurrency()(w) == code;
      assert w.currency == code;
    }
    forall w | w in wallets ensures w.currency in codes {
      assert ByCurrency()(w) == w.currency;
    }
    if wallets != [] {
      assert wallets[0] in wallets && wallets[0].currency in codes;
    }
    if codes != [] {
      assert codes[0] in codes;
    }
  }

  /** Since the old state the treasuries of all other currencies have spent nothing. */
  twostate predicate OthersUnspent(treasuryByCurrency: map<string, SeedWallet>, funded: seq<string>)
    reads treasuryByCurrency.Values
  {
    forall code | code in treasuryByCurrency && code !in funded ::
      treasuryByCurrency[code].balance == old(treasuryByCurrency[code].balance)
  }

  /** A treasury that was not overdrawn has spent at most its budget. */
  predicate WithinBudget(before: int, now: int) { before >= 0 ==> before - Budget(before) <= now <= before }

  lemma SpendingNothingIsWithinBudget(before: int)
    ensures WithinBudget(before, before)
  {
    if before >= 0 {
      BudgetIsAffordable(before);
    }
  }

  /** Since the old state the treasuries of these currencies have kept within their budgets. */
  twostate predicate WithinBudgets(treasuryByCurrency: map<string, SeedWallet>, funded: seq<string>)
    reads treasuryByCurrency.Values
  {
    forall code | code in treasuryByCurrency && code in funded ::
      WithinBudget(old(treasuryByCurrency[code].balance), treasuryByCurrency[code].balance)
  }

  /** No customer has lost anything. */
  twostate predicate CustomersGain(treasuryByCurrency: map<string, SeedWallet>, all: set<SeedWallet>)
    reads all
  {
    forall w | w in all && w !in treasuryByCurrency.Values :: w.balance >= old(w.balance)
  }

  /** Funds one currency after another. None where the program throws. */
  method FundEach(config: Config, rng: DeterministicRng, codes: seq<string>, groups: map<string, seq<SeedWallet>>,
                  treasuryByCurrency: map<string, SeedWallet>, ghost all: set<SeedWallet>)
    returns (r: Option<seq<Row>>)
    requires DistinctIds(all) && treasuryByCurrency.Values <= all
    requires forall i, j :: 0 <= i < j < |codes| ==> codes[i] != codes[j]
    requires forall code | code in codes :: code in groups && groups[code] != []
    requires forall code | code in codes :: forall w | w in groups[code] :: w in all && w !in treasuryByCurrency.Values
    requires forall code | code in treasuryByCurrency :: treasuryByCurrency[code].currency == code
    modifies rng, all
    ensures r.Some? ==> Moved(all, r.value) && GroupsBalanced(r.value)
    ensures CustomersGain(treasuryByCurrency, all)
    ensures OneSided(config) ==> forall code | code in treasuryByCurrency ::
                WithinBudget(old(treasuryByCurrency[code].balance), treasuryByCurrency[code].balance)
    ensures r.Some? <==> (forall code | code in codes :: code in treasuryByCurrency)
                         && (codes == [] || Cumulative(config.tierDistribution, |config.tierDistribution|) > 0.0)
    ensures rng.issued >= old(rng.issued)
  {
    var entries: seq<Row> := [];
    ghost var funded: seq<string> := [];
    forall before ensures WithinBudget(before, before) {
      SpendingNothingIsWithinBudget(before);
    }
    for i := 0 to |codes|
      invariant funded == codes[..i]
      invariant Moved(all, entries) && GroupsBalanced(entries)
      invariant CustomersGain(treasuryByCurrency, all) && OthersUnspent(treasuryByCurrency, funded)
      invariant OneSided(config) ==> WithinBudgets(treasuryByCurrency, funded)
      invariant forall code | code in funded :: code in treasuryByCurrency
      invariant i > 0 ==> Cumulative(config.tierDistribution, |config.tierDistribution|) > 0.0
      invariant rng.issued >= old(rng.issued)
    {
      var code := codes[i];
      assert code in codes && code !in funded;
      if code !in treasuryByCurrency {
        return None;
      }
      var more := FundCurrency(config, rng, code, groups[code], treasuryByCurrency[code], all);
      if more.None? {
        return None;
      }
      AppendRows(entries, more.value);
      entries := entries + more.value;
      funded := funded + [code];
    }
    assert funded == codes;
    return Some(entries);
  }

  /**
    Funds every wallet, for any configuration. Each posting moves exactly what both of its legs record, and no
    customer loses anything; if the configuration is one-sided, no currency's treasury spends more than its budget
    and none is overdrawn. None exactly where the program throws: some wallet's currency has no treasury, or the
    tiers' weights do not sum to more than zero.
  */
  method GenerateFunding(config: Config, rng: DeterministicRng, wallets: seq<SeedWallet>,
                         treasuryByCurrency: map<string, SeedWallet>, ghost all: set<SeedWallet>)
    returns (r: Option<seq<Row>>)
    requires DistinctIds(all) && forall w | w in wallets :: w in all
    requires treasuryByCurrency.Values <= all && TreasuryApart(treasuryByCurrency, set w | w in wallets)
    modifies rng, all
    ensures r.Some? ==> Moved(all, r.value) && GroupsBalanced(r.value)
    ensures CustomersGain(treasuryByCurrency, all)
    ensures OneSided(config) ==> forall code | code in treasuryByCurrency ::
                WithinBudget(old(treasuryByCurrency[code].balance), treasuryByCurrency[code].balance)
    ensures OneSided(config) ==> NoneSinks(all)
    ensures r.Some? <==> CanFund(config, wallets, treasuryByCurrency)
    ensures rng.issued >= old(rng.issued)
  {
    var codes, groups := GroupByCurrency(wallets);
    GroupsAreOfWallets(wallets, codes, groups);
    r := FundEach(config, rng, codes, groups, treasuryByCurrency, all);
    forall t | t in treasuryByCurrency.Values && old(t.balance) >= 0
      ensures OneSided(config) ==> t.balance >= 0
    {
      BudgetIsAffordable(old(t.balance));
    }
  }
}
