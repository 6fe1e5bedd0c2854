/** Seeded remittances: completed ones replay the real leg layouts and move shared balances in place. */
module SeedRemittances {
  import opened Wrappers
  import opened Rounding
  import opened Sums
  import opened LedgerRows
  import opened SeedBook
  import opened SeedRng
  import Money
  import Conversion

  const UNVERIFIED_LIMIT := 100_000
  const MIN_REMITTANCE_AMOUNT := 100
  const MIN_SEND_FRACTION := 0.01
  const MAX_SEND_FRACTION := 0.35
  const TREASURY_LEG_SAFETY := 0.9

  datatype Remittance = Remittance(
    id: nat, sender: nat, recipient: nat, source: nat, destination: nat, amount: int, sourceCurrency: string, fee: int,
    converted: int, destinationCurrency: string, exchangeRate: real, status: Status)

  datatype Built = Threw | Skipped | Built(remittance: Remittance, rows: seq<Row>)

  // ---- The arithmetic

  function AmountToSend(balance: int, fraction: real): int { (balance as real * fraction).Floor }

  /** The fraction sent leaves room for the fee, so the defensive check for it never fires. */
  lemma FeeIsAlwaysCovered(balance: int, fraction: real, amount: int)
    requires MIN_SEND_FRACTION <= fraction < MAX_SEND_FRACTION && balance >= 0
    requires MIN_REMITTANCE_AMOUNT <= amount <= AmountToSend(balance, fraction)
    ensures amount + Money.Fee(amount) <= balance && amount as real <= MAX_SEND_FRACTION * balance as real
  {
    var b := balance as real;
    MulMonotone(fraction, MAX_SEND_FRACTION, b);
    assert b * fraction == fraction * b;
    assert amount as real <= MAX_SEND_FRACTION * b;
    assert (amount + amount) as real <= b;
    assert Money.Fee(amount) <= amount;
  }

  function MaxAffordable(balance: int): int { (balance as real * TREASURY_LEG_SAFETY).Floor }

  function Rescale(amount: int, max: int, converted: int): int
    requires converted > 0
  {
    (amount as real * (max as real / converted as real)).Floor
  }

  /**
    If c is within half a unit of a converted, then whatever is at most a scaled by m / c converts to less
    than m + 1/2.
  */
  lemma ScalingShrinks(a: real, scaled: real, rate: real, p: real, s: real, c: real, m: real)
    requires rate >= 0.0 && p >= 0.0 && 0.0 < s < 1.0 && scaled <= a * s && s * c == m && a * rate * p <= c + 0.5
    ensures scaled * rate * p < m + 0.5
  {
    Conversion.ProductsMonotone(scaled, a * s, rate, p);
    var x := a * rate;
    assert a * s * rate == x * s;
    assert x * s * p == x * p * s;
    MulMonotone(x * p, c + 0.5, s);
    assert (c + 0.5) * s == m + 0.5 * s;
  }

  lemma RescaleIsFloorOfScaled(amount: int, max: int, converted: int, s: real)
    requires amount >= 0 && 0 < max < converted && s == max as real / converted as real
    ensures 0.0 < s < 1.0 && s * converted as real == max as real
    ensures 0 <= Rescale(amount, max, converted) <= amount
    ensures Rescale(amount, max, converted) as real <= amount as real * s
  {
    assert s * converted as real == max as real;
    MulMonotone(0.0, s, amount as real);
    MulMonotone(s, 1.0, amount as real);
  }

  /** A conversion is negative only at a negative rate, and never positive at one. */
  lemma ConversionHasRatesSign(amount: int, rate: real, adjustment: int)
    requires amount >= 0
    ensures rate >= 0.0 ==> Conversion.ConvertMinor(amount, rate, adjustment) >= 0
    ensures rate <= 0.0 ==> Conversion.ConvertMinor(amount, rate, adjustment) <= 0
  {
    if rate >= 0.0 {
      MulMonotone(0.0, amount as real, rate);
      MulMonotone(0.0, amount as real * rate, Conversion.Pow10(adjustment));
    }
    if rate <= 0.0 {
      MulMonotone(rate, 0.0, amount as real);
      MulMonotone(amount as real * rate, 0.0, Conversion.Pow10(adjustment));
    }
  }

  /** After the rescale the rounded conversion never exceeds the cap, for every rate. */
  lemma RescaledConversionFits(amount: int, rate: real, adjustment: int, max: int)
    requires amount >= 0 && rate >= 0.0 && 0 < max < Conversion.ConvertMinor(amount, rate, adjustment)
    ensures var amount' := Rescale(amount, max, Conversion.ConvertMinor(amount, rate, adjustment));
            0 <= amount' <= amount && 0 <= Conversion.ConvertMinor(amount', rate, adjustment) <= max
  {
    var converted, p := Conversion.ConvertMinor(amount, rate, adjustment), Conversion.Pow10(adjustment);
    var s := max as real / converted as real;
    RescaleIsFloorOfScaled(amount, max, converted, s);
    var amount' := Rescale(amount, max, converted);
    assert amount as real * rate * p <= converted as real + 0.5;
    ScalingShrinks(amount as real, amount' as real, rate, p, s, converted as real, max as real);
    ConversionHasRatesSign(amount', rate, adjustment);
  }

  // ---- The leg layouts

  function SameCurrencyLegs(r: Remittance, treasury: nat): seq<RowLeg> {
    Transfer(r.source, r.destination, r.sourceCurrency, r.amount)
      + Transfer(r.source, treasury, r.sourceCurrency, r.fee)
  }

  function CrossCurrencyLegs(r: Remittance, treasurySource: nat, treasuryDestination: nat): seq<RowLeg> {
    Transfer(r.source, treasurySource, r.sourceCurrency, r.amount)
      + Transfer(r.source, treasurySource, r.sourceCurrency, r.fee)
    + Transfer(treasuryDestination, r.destination, r.destinationCurrency, r.converted)
  }

  function LegsOf(r: Remittance, treasurySource: nat, treasuryDestination: nat): seq<RowLeg> {
    if r.sourceCurrency == r.destinationCurrency then SameCurrencyLegs(r, treasurySource)
    else CrossCurrencyLegs(r, treasurySource, treasuryDestination)
  }

  lemma AppendLegs(a: seq<RowLeg>, b: seq<RowLeg>)
    ensures Balanced(a) && Balanced(b) ==> Balanced(a + b)
    ensures forall w :: LegsNet(a + b, w) == LegsNet(a, w) + LegsNet(b, w)
  {
    forall w ensures LegsNet(a + b, w) == LegsNet(a, w) + LegsNet(b, w) {
      Concat(a, b, LegFor(w));
    }
    forall code ensures Net(a + b, code) == Net(a, code) + Net(b, code) {
      Concat(a, b, InCurrency(code));
    }
  }

  /** What a completed remittance does to each wallet. */
  function Effect(r: Remittance, ts: nat, td: nat, w: nat): int {
    When(w == r.source, -(r.amount + r.fee)) +
    if r.sourceCurrency == r.destinationCurrency then When(w == r.destination, r.amount) + When(w == ts, r.fee)
    else When(w == r.destination, r.converted) + When(w == ts, r.amount + r.fee) + When(w == td, -r.converted)
  }

  /** Its legs balance and record exactly that. */
  lemma LegsOfNets(r: Remittance, ts: nat, td: nat)
    ensures Balanced(LegsOf(r, ts, td))
    ensures forall w :: LegsNet(LegsOf(r, ts, td), w) == Effect(r, ts, td, w)
  {
    TransferNets(r.source, ts, r.sourceCurrency, r.fee);
    if r.sourceCurrency == r.destinationCurrency {
      TransferNets(r.source, r.destination, r.sourceCurrency, r.amount);
      AppendLegs(Transfer(r.source, r.destination, r.sourceCurrency, r.amount),
                 Transfer(r.source, ts, r.sourceCurrency, r.fee));
    } else {
      TransferNets(r.source, ts, r.sourceCurrency, r.amount);
      TransferNets(td, r.destination, r.destinationCurrency, r.converted);
      var paid := Transfer(r.source, ts, r.sourceCurrency, r.amount);
      var fees := Transfer(r.source, ts, r.sourceCurrency, r.fee);
      AppendLegs(paid, fees);
      AppendLegs(paid + fees, Transfer(td, r.destination, r.destinationCurrency, r.converted));
    }
  }

  // ---- Building one remittance

  /** Source, destination and treasury wallets come from one pool of distinct wallets. */
  ghost predicate Ready(all: set<SeedWallet>, treasury: map<string, SeedWallet>) {
    DistinctIds(all) && treasury.Values <= all
    && forall code | code in treasury :: treasury[code].currency == code
  }

  /** What a completed remittance will move, or why there is none. */
  datatype Decision = Throws | Skips | Goes(amount: int, fee: int, converted: int, rate: real)

  function JitteredRate(quote: real, jitter: real): (rate: real)
    ensures quote > 0.0 && jitter >= -1.0 ==> rate >= 0.0
  {
    quote * (1.0 + jitter)
  }

  /** The conversion at this rate, scaled down to what the destination treasury can afford; the fee stays as it was. */
  function Cap(amount: int, fee: int, rate: real, adjustment: int, treasuryBalance: int): (d: Decision)
    requires amount >= MIN_REMITTANCE_AMOUNT
    ensures d.Goes? ==>
              && MIN_REMITTANCE_AMOUNT <= d.amount <= amount && d.fee == fee && d.rate == rate
              && d.converted == Conversion.ConvertMinor(d.amount, rate, adjustment)
              && d.converted <= MaxAffordable(treasuryBalance)
              && (rate >= 0.0 ==> 0 <= d.converted <= treasuryBalance)
    ensures Conversion.ConvertMinor(amount, rate, adjustment) <= MaxAffordable(treasuryBalance) ==>
              d.Goes? && d.amount == amount
  {
    var converted, maxAffordable := Conversion.ConvertMinor(amount, rate, adjustment), MaxAffordable(treasuryBalance);
    ConversionHasRatesSign(amount, rate, adjustment);
    if converted <= maxAffordable then Goes(amount, fee, converted, rate)
    else if maxAffordable <= 0 then Skips
    else
      RescaledConversionFits(amount, rate, adjustment, maxAffordable);
      var scaled := Rescale(amount, maxAffordable, converted);
      if scaled < MIN_REMITTANCE_AMOUNT then Skips
      else Goes(scaled, fee, Conversion.ConvertMinor(scaled, rate, adjustment), rate)
  }

  // ---- The fee of a capped remittance

  /** Half a percent, rounded, is the number of hundreds in half the amount: it rises by one every two hundred. */
  lemma FeeIsQuotient(amount: nat)
    ensures Money.Fee(amount) == (amount + 100) / 200
  {
    var q := (amount + 100) / 200;
    assert 200 * q <= amount + 100 < 200 * q + 200;
    assert q as real <= amount as real * Money.FEE_PERCENTAGE + 0.5 < q as real + 1.0;
  }

  /**
    A completed remittance is charged its own fee exactly when its conversion fits, or the scaled-down amount
    still rounds to the same fee. It is never charged less, and always more once scaling takes 200 units away.
  */
  lemma CappedFee(amount: int, rate: real, adjustment: int, treasuryBalance: int)
    requires amount >= MIN_REMITTANCE_AMOUNT
    ensures var d := Cap(amount, Money.Fee(amount), rate, adjustment, treasuryBalance);
            var converted, max := Conversion.ConvertMinor(amount, rate, adjustment), MaxAffordable(treasuryBalance);
            d.Goes? ==>
              && (d.fee == Money.Fee(d.amount) <==>
                    converted <= max || (Rescale(amount, max, converted) + 100) / 200 == (amount + 100) / 200)
              && d.fee >= Money.Fee(d.amount)
              && (amount - d.amount >= 200 ==> d.fee > Money.Fee(d.amount))
  {
    var d := Cap(amount, Money.Fee(amount), rate, adjustment, treasuryBalance);
    if d.Goes? {
      FeeIsQuotient(amount);
      FeeIsQuotient(d.amount);
    }
  }

  /**
    A payment from dollars to euros at the quoted rate, scaled to the treasury: 5 000 is charged where 489
    would be.
  */
  lemma FeeIsNotRecomputed()
    ensures var rate := Conversion.ComputeRate("USD", "EUR").value;
            Cap(1_000_000, Money.Fee(1_000_000), rate, 0, 100_000) == Goes(97_826, 5_000, 90_000, rate)
    ensures Money.Fee(97_826) == 489
  {
    var rate := Conversion.ComputeRate("USD", "EUR").value;
    assert rate == 0.92;
    assert Conversion.Pow10(0) == 1.0;
    RoundIs(920_000.0, 920_000);
    assert Conversion.ConvertMinor(1_000_000, rate, 0) == 920_000;
    assert MaxAffordable(100_000) == 90_000;
    assert Rescale(1_000_000, 90_000, 920_000) == 97_826;
    RoundIs(89_999.92, 90_000);
    assert Conversion.ConvertMinor(97_826, rate, 0) == 90_000;
    FeeIsQuotient(1_000_000);
    FeeIsQuotient(97_826);
  }

  // ---- Deciding on a completed remittance

  /** What the sender asks for: a drawn fraction of the balance, within the limit for unverified senders. */
  function Requested(sender: Customer, balance: int, state: nat): int {
    var amount := AmountToSend(balance, FloatFrom(Draw(Advance(state)), MIN_SEND_FRACTION, MAX_SEND_FRACTION));
    if !sender.kycVerified && amount > UNVERIFIED_LIMIT then UNVERIFIED_LIMIT else amount
  }

  /** A currency that the program knows and that has a treasury. */
  predicate Usable<T>(code: string, treasury: map<string, T>) { Money.CurrencyFrom(code).Success? && code in treasury }

  /** The jitter cannot turn a rate negative. */
  predicate SmallJitter(config: Config) { -1.0 <= config.fxJitter <= 1.0 }

  /** A conversion at the quoted rate, jittered, and capped to the treasury. */
  function DecideCross(config: Config, amount: int, from: Money.Currency, to: Money.Currency, treasuryBalance: int,
                       state: nat): Decision
    requires amount >= MIN_REMITTANCE_AMOUNT
  {
    var quote := Conversion.ComputeRate(from.code, to.code);
    if quote.None? then Throws
    else
      var jitter := FloatFrom(Draw(Advance(state)), -config.fxJitter, config.fxJitter);
      Cap(amount, Money.Fee(amount), JitteredRate(quote.value, jitter), to.exponent - from.exponent, treasuryBalance)
  }

  /** A width of at most one keeps every jittered rate from going negative, and only such a width does. */
  lemma RatesStayPositiveIff(quote: real, width: real)
    requires quote > 0.0 && width >= 0.0
    ensures (forall state: nat :: JitteredRate(quote, FloatFrom(Draw(state), -width, width)) >= 0.0) <==> width <= 1.0
  {
    if width > 1.0 {
      assert Scramble(0) == 0;
      MulMonotone(1.0 - width, 0.0, quote);
      assert quote * (1.0 - width) < 0.0;
      assert JitteredRate(quote, FloatFrom(Draw(0), -width, width)) < 0.0;
    }
  }

  /** At a negative rate a payment goes ahead on any treasury and takes from the destination instead of giving. */
  lemma NegativeRateTakes(amount: int, rate: real, adjustment: int, treasuryBalance: nat)
    requires amount >= MIN_REMITTANCE_AMOUNT && rate < 0.0
    ensures var d := Cap(amount, Money.Fee(amount), rate, adjustment, treasuryBalance);
            d.Goes? && d.amount == amount && d.converted <= 0
  {
    ConversionHasRatesSign(amount, rate, adjustment);
  }

  /** With a jitter of two, a thousand from dollars to euros can take 920 from the destination. */
  lemma LargeJitterTakes(treasuryBalance: nat)
    ensures var rate := JitteredRate(Conversion.ComputeRate("USD", "EUR").value, FloatFrom(Draw(0), -2.0, 2.0));
            Cap(1_000, Money.Fee(1_000), rate, 0, treasuryBalance) == Goes(1_000, Money.Fee(1_000), -920, rate)
  {
    var rate := JitteredRate(Conversion.ComputeRate("USD", "EUR").value, FloatFrom(Draw(0), -2.0, 2.0));
    assert Scramble(0) == 0;
    assert rate == -0.92;
    assert Conversion.Pow10(0) == 1.0;
    RoundIs(-920.0, -920);
    NegativeRateTakes(1_000, rate, 0, treasuryBalance);
  }

  /** The whole decision, as a function of the balances and of the generator's state. */
  function Decide(config: Config, sender: Customer, source: string, balance: int, destination: string,
                  treasury: map<string, int>, state: nat): Decision
  {
    var amount := Requested(sender, balance, state);
    if amount < MIN_REMITTANCE_AMOUNT then Skips
    else if !Usable(source, treasury) then Throws
    else if source == destination then Goes(amount, Money.Fee(amount), amount, 1.0)
    else if !Usable(destination, treasury) then Throws
    else DecideCross(config, amount, Money.CurrencyFrom(source).value, Money.CurrencyFrom(destination).value,
                     treasury[destination], Advance(state))
  }

  /** The program throws exactly when an amount was asked for and a currency it needs is unknown or has no treasury. */
  lemma ThrowsIff(config: Config, sender: Customer, source: string, balance: int, destination: string,
                  treasury: map<string, int>, state: nat)
    ensures Decide(config, sender, source, balance, destination, treasury, state).Throws?
       <==> Requested(sender, balance, state) >= MIN_REMITTANCE_AMOUNT
            && !(Usable(source, treasury) && Usable(destination, treasury))
  {
  }

  lemma CrossIsCovered(config: Config, amount: int, from: Money.Currency, to: Money.Currency, treasuryBalance: int,
                       state: nat)
    requires amount >= MIN_REMITTANCE_AMOUNT && to.exponent == from.exponent
    ensures var d := DecideCross(config, amount, from, to, treasuryBalance, state);
            d.Goes? ==>
              && MIN_REMITTANCE_AMOUNT <= d.amount <= amount
              && d.fee == Money.Fee(amount) && d.fee >= Money.Fee(d.amount)
              && d.converted <= MaxAffordable(treasuryBalance)
              && (SmallJitter(config) ==> 0 <= d.converted <= treasuryBalance)
              && d.converted == Conversion.ConvertMinor(d.amount, d.rate, 0)
  {
    if DecideCross(config, amount, from, to, treasuryBalance, state).Goes? {
      var jitter := FloatFrom(Draw(Advance(state)), -config.fxJitter, config.fxJitter);
      CappedFee(amount, JitteredRate(Conversion.ComputeRate(from.code, to.code).value, jitter), 0, treasuryBalance);
    }
  }

  lemma RequestIsCovered(sender: Customer, balance: int, state: nat)
    requires Requested(sender, balance, state) >= MIN_REMITTANCE_AMOUNT
    ensures var amount := Requested(sender, balance, state);
            && amount + Money.Fee(amount) <= balance && amount as real <= MAX_SEND_FRACTION * balance as real
            && (!sender.kycVerified ==> amount <= UNVERIFIED_LIMIT)
  {
    var fraction := FloatFrom(Draw(Advance(state)), MIN_SEND_FRACTION, MAX_SEND_FRACTION);
    if balance < 0 {
      MulMonotone(balance as real, 0.0, fraction);
    }
    FeeIsAlwaysCovered(balance, fraction, Requested(sender, balance, state));
  }

  /**
    What is decided can be paid for, by the sender and, if the jitter is small, by the treasury, and is charged at
    least its own fee.
  */
  lemma DecisionIsCovered(config: Config, sender: Customer, source: string, balance: int, destination: string,
                          treasury: map<string, int>, state: nat)
    ensures var d := Decide(config, sender, source, balance, destination, treasury, state);
            d.Goes? ==>
              && Usable(source, treasury) && Usable(destination, treasury)
              && MIN_REMITTANCE_AMOUNT <= d.amount <= Requested(sender, balance, state)
              && d.fee == Money.Fee(Requested(sender, balance, state)) && d.fee >= Money.Fee(d.amount)
              && (!sender.kycVerified ==> d.amount <= UNVERIFIED_LIMIT)
              && 0 <= d.fee && d.amount + d.fee <= balance
              && d.amount as real <= MAX_SEND_FRACTION * balance as real
              && (source == destination ==> d.converted == d.amount && d.rate == 1.0 && d.fee == Money.Fee(d.amount))
              && (source != destination ==>
                    && d.converted <= MaxAffordable(treasury[destination])
                    && (SmallJitter(config) ==> 0 <= d.converted <= treasury[destination])
                    && d.converted == Conversion.ConvertMinor(d.amount, d.rate, 0))
  {
    if !Decide(config, sender, source, balance, destination, treasury, state).Goes? {
      return;
    }
    var amount := Requested(sender, balance, state);
    RequestIsCovered(sender, balance, state);
    if source != destination {
      CrossIsCovered(config, amount, Money.CurrencyFrom(source).value, Money.CurrencyFrom(destination).value,
                     treasury[destination], Advance(state));
    }
  }

  function Balances(treasury: map<string, SeedWallet>): map<string, int>
    reads treasury.Values
  {
    map code | code in treasury :: treasury[code].balance
  }

  /** Draws the amount asked for. */
  method DrawRequest(rng: DeterministicRng, sender: Customer, balance: int) returns (amount: int)
    modifies rng`state
    ensures amount == Requested(sender, balance, old(rng.state)) && rng.state == Advance(old(rng.state))
    ensures amount >= MIN_REMITTANCE_AMOUNT ==> amount + Money.Fee(amount) <= balance
  {
    var fraction := rng.Range(MIN_SEND_FRACTION, MAX_SEND_FRACTION);
    amount := AmountToSend(balance, fraction);
    if !sender.kycVerified && amount > UNVERIFIED_LIMIT {
      amount := UNVERIFIED_LIMIT;
    }
    if amount >= MIN_REMITTANCE_AMOUNT {
      RequestIsCovered(sender, balance, old(rng.state));
    }
  }

  method CapAtQuote(config: Config, rng: DeterministicRng, amount: int, fee: int, from: Money.Currency,
                    to: Money.Currency, treasuryBalance: int)
    returns (d: Decision)
    requires amount >= MIN_REMITTANCE_AMOUNT && fee == Money.Fee(amount)
    modifies rng`state
    ensures d == DecideCross(config, amount, from, to, treasuryBalance, old(rng.state))
  {
    var quote := Conversion.ComputeRate(from.code, to.code);
    if quote.None? {
      return Throws;
    }
    var jitter := rng.Range(-config.fxJitter, config.fxJitter);
    return Cap(amount, fee, JitteredRate(quote.value, jitter), to.exponent - from.exponent, treasuryBalance);
  }

  /** What is decided takes no more from source and destination treasury than they have. */
  ghost predicate Payable(d: Decision, source: SeedWallet, destination: SeedWallet, treasury: map<string, SeedWallet>)
    reads source, treasury.Values
  {
    && d.Goes? && source.currency in treasury && destination.currency in treasury
    && 0 <= d.amount && 0 <= d.fee && d.amount + d.fee <= source.balance
    && (if source.currency == destination.currency then d.converted == d.amount
        else 0 <= d.converted ==> d.converted <= treasury[destination.currency].balance)
  }

  lemma DecisionIsPayable(config: Config, sender: Customer, source: SeedWallet, destination: SeedWallet,
                          treasury: map<string, SeedWallet>, state: nat)
    ensures var d := Decide(config, sender, source.currency, source.balance, destination.currency, Balances(treasury),
                            state);
            d.Goes? ==> Payable(d, source, destination, treasury) && (SmallJitter(config) ==> 0 <= d.converted)
  {
    if destination.currency in treasury {
    }
    DecisionIsCovered(config, sender, source.currency, source.balance, destination.currency, Balances(treasury), state);
  }

  method DecideCompleted(config: Config, rng: DeterministicRng, sender: Customer, source: SeedWallet,
                         destination: SeedWallet, treasury: map<string, SeedWallet>)
    returns (d: Decision)
    modifies rng`state
    ensures d
         == Decide(config, sender, source.currency, source.balance, destination.currency, Balances(treasury),
                   old(rng.state))
    ensures d.Goes? ==> Payable(d, source, destination, treasury) && (SmallJitter(config) ==> 0 <= d.converted)
  {
    DecisionIsPayable(config, sender, source, destination, treasury, rng.state);
    var amount := DrawRequest(rng, sender, source.balance);
    if amount < MIN_REMITTANCE_AMOUNT {
      return Skips;
    }
    var from := Money.CurrencyFrom(source.currency);
    if from.Failure? {
      return Throws;
    }
    var fee := Money.Fee(amount);
    if amount + fee > source.balance {
      assert false;
    }
    if source.currency !in treasury {
      return Throws;
    }
    if source.currency == destination.currency {
      return Goes(amount, fee, amount, 1.0);
    }
    if destination.currency !in treasury {
      return Throws;
    }
    var to := Money.CurrencyFrom(destination.currency);
    if to.Failure? {
      return Throws;
    }
    assert Balances(treasury)[destination.currency] == treasury[destination.currency].balance;
    d := CapAtQuote(config, rng, amount, fee, from.value, to.value, treasury[destination.currency].balance);
  }

  /** The remittance a decision stands for. */
  predicate Carries(d: Decision, r: Remittance) {
    d.Goes? && r.amount == d.amount && r.fee == d.fee && r.converted == d.converted && r.exchangeRate == d.rate
  }

  /** The ledger rows a remittance stands for: its legs if it completed, none otherwise. */
  ghost function RowsOf(r: Remittance, treasury: map<string, SeedWallet>): seq<Row> {
    if r.status == Completed && r.sourceCurrency in treasury && r.destinationCurrency in treasury then
      Posted(LegsOf(r, treasury[r.sourceCurrency].id, treasury[r.destinationCurrency].id), r.id, r.id + 1)
    else []
  }

  /**
    A completed remittance exactly when the decision is to go ahead, and otherwise nothing and no change. Every
    balance moves by exactly what its rows record and, if the jitter is small, none becomes negative.
  */
  method BuildCompletedRemittance(config: Config, rng: DeterministicRng, sender: Customer, source: SeedWallet,
                                  recipient: Customer, destination: SeedWallet, treasury: map<string, SeedWallet>,
                                  ghost all: set<SeedWallet>)
    returns (r: Built)
    requires Ready(all, treasury) && source in all && destination in all
    modifies rng, all
    ensures var d := old(Decide(config, sender, source.currency, source.balance, destination.currency,
                                Balances(treasury), rng.state));
            && (r.Threw? <==> d.Throws?) && (r.Skipped? <==> d.Skips?) && (r.Built? ==> Carries(d, r.remittance))
    ensures r.Built? ==>
              && Moved(all, r.rows) && (SmallJitter(config) ==> NoneSinks(all)) && GroupsBalanced(r.rows)
              && source.currency in treasury && destination.currency in treasury
              && r.remittance.source == source.id && r.remittance.destination == destination.id
              && r.remittance.sourceCurrency == source.currency
              && r.remittance.destinationCurrency == destination.currency
              && r.remittance.status == Completed && r.rows == RowsOf(r.remittance, treasury)
    ensures !r.Built? ==> forall w | w in all :: w.balance == old(w.balance)
    ensures rng.issued >= old(rng.issued)
  {
    var d := DecideCompleted(config, rng, sender, source, destination, treasury);
    match d
    case Throws => return Threw;
    case Skips => return Skipped;
    case Goes(_, _, _, _) =>
      r := Complete(rng, d, sender, source, recipient, destination, treasury, all);
  }

  /** Carries a decision out. */
  method Complete(rng: DeterministicRng, d: Decision, sender: Customer, source: SeedWallet, recipient: Customer,
                  destination: SeedWallet, treasury: map<string, SeedWallet>, ghost all: set<SeedWallet>)
    returns (r: Built)
    requires Ready(all, treasury) && source in all && destination in all && Payable(d, source, destination, treasury)
    modifies rng, all
    ensures r.Built? && Carries(d, r.remittance) && Moved(all, r.rows) && GroupsBalanced(r.rows)
    ensures 0 <= d.converted ==> NoneSinks(all)
    ensures r.remittance.source == source.id && r.remittance.destination == destination.id
    ensures r.remittance.sourceCurrency == source.currency && r.remittance.destinationCurrency == destination.currency
    ensures r.remittance.status == Completed && r.rows == RowsOf(r.remittance, treasury)
    ensures rng.issued >= old(rng.issued)
  {
    var id := rng.Uuid();
    var remittance := Remittance(id, sender.accountId, recipient.accountId, source.id, destination.id, d.amount,
                                 source.currency, d.fee, d.converted, destination.currency, d.rate, Completed);
    var rows := PostRemittance(rng, remittance, source, destination, treasury[source.currency],
                               treasury[destination.currency], all);
    return Built(remittance, rows);
  }

  /** The wallets are those the remittance names, and have what it takes from them. */
  ghost predicate CanSettle(r: Remittance, source: SeedWallet, destination: SeedWallet, ts: SeedWallet, td: SeedWallet,
                            all: set<SeedWallet>)
    reads all
  {
    && DistinctIds(all) && source in all && destination in all && ts in all && td in all
    && r.source == source.id && r.destination == destination.id
    && r.sourceCurrency == source.currency == ts.currency
    && r.destinationCurrency == destination.currency == td.currency
    && 0 <= r.amount && 0 <= r.fee && r.amount + r.fee <= source.balance
    && (if r.sourceCurrency == r.destinationCurrency then r.converted == r.amount
        else 0 <= r.converted ==> r.converted <= td.balance)
  }

  method PostRemittance(rng: DeterministicRng, r: Remittance, source: SeedWallet, destination: SeedWallet,
                        treasurySource: SeedWallet, treasuryDestination: SeedWallet, ghost all: set<SeedWallet>)
    returns (rows: seq<Row>)
    requires CanSettle(r, source, destination, treasurySource, treasuryDestination, all)
    modifies rng, source`balance, destination`balance, treasurySource`balance, treasuryDestination`balance
    ensures rows == Posted(LegsOf(r, treasurySource.id, treasuryDestination.id), r.id, old(rng.issued))
    ensures Moved(all, rows) && (0 <= r.converted ==> NoneSinks(all)) && GroupsBalanced(rows)
    ensures rng.issued >= old(rng.issued)
  {
    var legs := LegsOf(r, treasurySource.id, treasuryDestination.id);
    LegsOfNets(r, treasurySource.id, treasuryDestination.id);
    var balanced := AssertBalancedPerCurrency(legs);
    var firstId := DrawIds(rng, |legs|);
    rows := Posted(legs, r.id, firstId);
    PostingAlone(legs, r.id, firstId);
    Settle(source, destination, treasurySource, treasuryDestination, r, all);
  }

  /** The balance updates of a completed remittance. */
  method Settle(source: SeedWallet, destination: SeedWallet, treasurySource: SeedWallet,
                treasuryDestination: SeedWallet, r: Remittance, ghost all: set<SeedWallet>)
    requires CanSettle(r, source, destination, treasurySource, treasuryDestination, all)
    modifies source`balance, destination`balance, treasurySource`balance, treasuryDestination`balance
    ensures forall w | w in all ::
              w.balance == old(w.balance) + Effect(r, treasurySource.id, treasuryDestination.id, w.id)
    ensures 0 <= r.converted ==> NoneSinks(all)
  {
    source.balance := source.balance - (r.amount + r.fee);
    destination.balance := destination.balance + r.converted;
    if source.currency == destination.currency {
      treasurySource.balance := treasurySource.balance + r.fee;
    } else {
      treasurySource.balance := treasurySource.balance + (r.amount + r.fee);
      treasuryDestination.balance := treasuryDestination.balance - r.converted;
    }
  }

  /** An amount that could have led to this status. */
  method SyntheticAmount(rng: DeterministicRng, status: Status, balance: int) returns (amount: int)
    requires status != Completed
    modifies rng`state
    ensures amount >= MIN_REMITTANCE_AMOUNT
    ensures status == RejectedCompliance ==> UNVERIFIED_LIMIT < amount <= UNVERIFIED_LIMIT * 20
    ensures status == RejectedInsufficientFunds ==> balance + 1_000 <= amount
  {
    match status {
      case RejectedCompliance =>
        amount := rng.NextInt(UNVERIFIED_LIMIT + 1, UNVERIFIED_LIMIT * 20);
      case RejectedInsufficientFunds =>
        var excess := rng.NextInt(1_000, 100_000);
        amount := (if balance > MIN_REMITTANCE_AMOUNT then balance else MIN_REMITTANCE_AMOUNT) + excess;
      case Failed =>
        var fraction := rng.Range(MIN_SEND_FRACTION, MAX_SEND_FRACTION);
        amount := AmountToSend(if balance == 0 then 100_000 else balance, fraction);
        amount := if amount < MIN_REMITTANCE_AMOUNT then MIN_REMITTANCE_AMOUNT else amount;
    }
  }

  /** Rejected and failed remittances: a row, no ledger rows, no balance touched. */
  method BuildSyntheticRemittance(rng: DeterministicRng, status: Status, sender: Customer, source: SeedWallet,
                                  recipient: Customer, destination: SeedWallet)
    returns (r: Built)
    requires status != Completed
    modifies rng
    ensures r.Threw? <==> Money.CurrencyFrom(source.currency).Failure?
                          || (source.currency != destination.currency
                              && Money.CurrencyFrom(destination.currency).Failure?)
    ensures r.Threw? || (r.Built? && r.rows == [] && r.remittance.status == status
                         && r.remittance.amount >= MIN_REMITTANCE_AMOUNT)
    ensures r.Built? ==>
              var x := r.remittance;
              && x.sender == sender.accountId && x.recipient == recipient.accountId
              && x.source == source.id && x.destination == destination.id
              && x.sourceCurrency == source.currency && x.destinationCurrency == destination.currency
              && x.fee == Money.Fee(x.amount)
              && (x.sourceCurrency == x.destinationCurrency ==> x.converted == x.amount && x.exchangeRate == 1.0)
              && (x.sourceCurrency != x.destinationCurrency ==>
                    && x.exchangeRate > 0.0 && x.converted == Conversion.ConvertMinor(x.amount, x.exchangeRate, 0))
    ensures r.Built? && status == RejectedCompliance ==> r.remittance.amount > UNVERIFIED_LIMIT
    ensures r.Built? && status == RejectedInsufficientFunds ==> r.remittance.amount > source.balance
    ensures rng.issued >= old(rng.issued)
  {
    var from := Money.CurrencyFrom(source.currency);
    if from.Failure? {
      return Threw;
    }
    var amount := SyntheticAmount(rng, status, source.balance);
    var converted, exchangeRate := amount, 1.0;
    if source.currency != destination.currency {
      var to := Money.CurrencyFrom(destination.currency);
      if to.Failure? {
        return Threw;
      }
      var quote := Conversion.ComputeRate(from.value.code, to.value.code);
      if quote.None? {
        return Threw;
      }
      exchangeRate := quote.value;
      converted := Conversion.ConvertMinor(amount, exchangeRate, to.value.exponent - from.value.exponent);
    }
    var id := rng.Uuid();
    return Built(Remittance(id, sender.accountId, recipient.accountId, source.id, destination.id, amount,
                            source.currency, Money.Fee(amount), converted, destination.currency, exchangeRate,
                            status), []);
  }

  // ---- Generating them all

  /** Another customer, or none after five unlucky draws. */
  method PickRecipient(rng: DeterministicRng, customers: seq<Customer>, excluded: nat) returns (r: Option<Customer>)
    requires customers != []
    modifies rng`state
    ensures r.Some? ==> r.value in customers && r.value.accountId != excluded
  {
    for attempt := 0 to 5 {
      var i := rng.NextInt(0, |customers| - 1);
      if customers[i].accountId != excluded {
        return Some(customers[i]);
      }
    }
    return None;
  }

  method PositiveWeights(entries: seq<Weighted<string>>) returns (active: seq<Weighted<string>>)
    ensures forall e :: e in active <==> e in entries && e.weight > 0.0
    ensures (forall i, j :: 0 <= i < j < |entries| ==> entries[i].value != entries[j].value) ==>
              forall i, j :: 0 <= i < j < |active| ==> active[i].value != active[j].value
  {
    active := [];
    for k := 0 to |entries|
      invariant forall e :: e in active <==> e in entries[..k] && e.weight > 0.0
      invariant (forall i, j :: 0 <= i < j < |entries| ==> entries[i].value != entries[j].value) ==>
                  forall i, j :: 0 <= i < j < |active| ==> active[i].value != active[j].value
    {
      assert entries[..k + 1] == entries[..k] + [entries[k]];
      if entries[k].weight > 0.0 {
        forall i | 0 <= i < |active| ensures exists j :: 0 <= j < k && entries[j] == active[i] {
          assert active[i] in entries[..k];
        }
        active := active + [entries[k]];
      }
    }
    assert entries[..|entries|] == entries;
  }

  /** A wallet in the currency drawn, if the recipient has one, or any of the recipient's wallets. */
  method PickDestinationWallet(config: Config, rng: DeterministicRng, wallets: seq<SeedWallet>)
    returns (r: Option<SeedWallet>)
    requires wallets != []
    modifies rng`state
    ensures r.Some? ==> r.value in wallets
    ensures r.Some? <==> exists e :: e in config.currencyDistribution && e.weight > 0.0
    ensures r.Some? ==> exists e :: e in config.currencyDistribution && e.weight > 0.0
                                    && (r.value.currency == e.value || forall w | w in wallets :: w.currency != e.value)
  {
    var active := PositiveWeights(config.currencyDistribution);
    PositiveTotal(active, |active|);
    assert active != [] ==> active[0] in active;
    var picked := rng.WeightedPick(active);
    if picked.None? {
      return None;
    }
    assert active[picked.value] in active;
    for i := 0 to |wallets|
      invariant forall k :: 0 <= k < i ==> wallets[k].currency != active[picked.value].value
    {
      if wallets[i].currency == active[picked.value].value {
        return Some(wallets[i]);
      }
    }
    var i := rng.Pick(|wallets|);
    return Some(wallets[i.value]);
  }

  datatype Generated = Generated(remittances: seq<Remittance>, rows: seq<Row>)

  ghost function AllRows(rs: seq<Remittance>, treasury: map<string, SeedWallet>): seq<Row> {
    if rs == [] then [] else AllRows(rs[..|rs| - 1], treasury) + RowsOf(rs[|rs| - 1], treasury)
  }

  /** Some currency and some status can be drawn. */
  predicate CanDraw(config: Config) {
    && (exists e :: e in config.currencyDistribution && e.weight > 0.0)
    && Cumulative(config.statusDistribution, |config.statusDistribution|) > 0.0
  }

  datatype Choice =
    | Chosen(source: SeedWallet, recipient: Customer, destination: SeedWallet, status: Status)
    | NoChoice
    | ChoiceThrew

  /** Who pays whom from which wallet into which, and with what status. */
  method ChooseTransfer(config: Config, rng: DeterministicRng, customers: seq<Customer>, sender: Customer,
                        senderWallets: seq<SeedWallet>, walletsByAccount: map<nat, seq<SeedWallet>>)
    returns (r: Choice)
    requires customers != [] && senderWallets != []
    modifies rng`state
    ensures r.Chosen? ==>
              && r.source in senderWallets && r.recipient in customers && r.recipient.accountId != sender.accountId
              && r.recipient.accountId in walletsByAccount && r.destination in walletsByAccount[r.recipient.accountId]
              && !(r.status == RejectedCompliance && sender.kycVerified)
    ensures CanDraw(config) ==> !r.ChoiceThrew?
  {
    var recipient := PickRecipient(rng, customers, sender.accountId);
    if recipient.None?
    || recipient.value.accountId !in walletsByAccount
    || walletsByAccount[recipient.value.accountId] == [] {
      return NoChoice;
    }
    var s := rng.Pick(|senderWallets|);
    var destination := PickDestinationWallet(config, rng, walletsByAccount[recipient.value.accountId]);
    if destination.None? {
      return ChoiceThrew;
    }
    var picked := rng.WeightedPick(config.statusDistribution);
    if picked.None? {
      return ChoiceThrew;
    }
    var status := config.statusDistribution[picked.value].value;
    if status == RejectedCompliance && sender.kycVerified {
      status := Completed;
    }
    return Chosen(senderWallets[s.value], recipient.value, destination.value, status);
  }

  /** Every customer's wallet is in a currency that can be used. */
  predicate WalletsUsable(walletsByAccount: map<nat, seq<SeedWallet>>, treasury: map<string, SeedWallet>) {
    forall account | account in walletsByAccount ::
      forall w | w in walletsByAccount[account] :: Usable(w.currency, treasury)
  }

  /** Builds one remittance of the status that was drawn: ledger rows for a completed one, none for another. */
  method BuildRemittance(config: Config, rng: DeterministicRng, status: Status, sender: Customer, source: SeedWallet,
                         recipient: Customer, destination: SeedWallet, treasury: map<string, SeedWallet>,
                         ghost all: set<SeedWallet>)
    returns (r: Built)
    requires Ready(all, treasury) && source in all && destination in all
    modifies rng, all
    ensures r.Built? ==>
              && Moved(all, r.rows) && GroupsBalanced(r.rows)
              && r.rows == RowsOf(r.remittance, treasury)
    ensures r.Built? ==>
              && r.remittance.status == status
              && r.remittance.sourceCurrency == source.currency
              && r.remittance.destinationCurrency == destination.currency
    ensures r.Built? && status == Completed ==> source.currency in treasury && destination.currency in treasury
    ensures SmallJitter(config) ==> NoneSinks(all)
    ensures !r.Built? ==> forall w | w in all :: w.balance == old(w.balance)
    ensures Usable(source.currency, treasury) && Usable(destination.currency, treasury) ==> !r.Threw?
    ensures rng.issued >= old(rng.issued)
  {
    if status == Completed {
      ThrowsIff(config, sender, source.currency, source.balance, destination.currency, Balances(treasury), rng.state);
      r := BuildCompletedRemittance(config, rng, sender, source, recipient, destination, treasury, all);
    } else {
      r := BuildSyntheticRemittance(rng, status, sender, source, recipient, destination);
      assert r.Built? ==> forall w :: RowNet(r.rows, w) == 0;
    }
  }

  /** Tries one remittance of a sender. */
  method GenerateOne(config: Config, rng: DeterministicRng, customers: seq<Customer>, sender: Customer,
                     senderWallets: seq<SeedWallet>, walletsByAccount: map<nat, seq<SeedWallet>>,
                     treasury: map<string, SeedWallet>, ghost all: set<SeedWallet>)
    returns (r: Built)
    requires Ready(all, treasury) && customers != [] && senderWallets != []
    requires forall w | w in senderWallets :: w in all
    requires forall account | account in walletsByAccount :: forall w | w in walletsByAccount[account] :: w in all
    modifies rng, all
    ensures r.Built? ==>
              && Moved(all, r.rows) && GroupsBalanced(r.rows)
              && r.rows == RowsOf(r.remittance, treasury)
    ensures SmallJitter(config) ==> NoneSinks(all)
    ensures r.Built? && r.remittance.status == Completed ==>
              r.remittance.sourceCurrency in treasury && r.remittance.destinationCurrency in treasury
    ensures !r.Built? ==> forall w | w in all :: w.balance == old(w.balance)
    ensures (&& CanDraw(config) && (forall w | w in senderWallets :: Usable(w.currency, treasury))
             && WalletsUsable(walletsByAccount, treasury)) ==> !r.Threw?
    ensures rng.issued >= old(rng.issued)
  {
    var choice := ChooseTransfer(config, rng, customers, sender, senderWallets, walletsByAccount);
    match choice
    case NoChoice => return Skipped;
    case ChoiceThrew => return Threw;
    case Chosen(source, recipient, destination, status) =>
      r := BuildRemittance(config, rng, status, sender, source, recipient, destination, treasury, all);
  }

  /**
    All remittances. The ledger rows are the legs of the completed ones, in order, and nothing else; every
    balance moves by exactly what they record and, if the jitter is small, none becomes negative.
  */
  method GenerateRemittances(config: Config, rng: DeterministicRng, customers: seq<Customer>,
                             walletsByAccount: map<nat, seq<SeedWallet>>, treasury: map<string, SeedWallet>,
                             ghost all: set<SeedWallet>)
    returns (r: Option<Generated>)
    requires Ready(all, treasury)
    requires forall account | account in walletsByAccount :: forall w | w in walletsByAccount[account] :: w in all
    modifies rng, all
    ensures r.Some? ==> Moved(all, r.value.rows) && GroupsBalanced(r.value.rows)
    ensures SmallJitter(config) ==> NoneSinks(all)
    ensures r.Some? ==> r.value.rows == AllRows(r.value.remittances, treasury)
    ensures r.Some? ==> forall x | x in r.value.remittances && x.status == Completed ::
                          x.sourceCurrency in treasury && x.destinationCurrency in treasury
    ensures CanDraw(config) && WalletsUsable(walletsByAccount, treasury) ==> r.Some?
    ensures rng.issued >= old(rng.issued)
  {
    var remittances: seq<Remittance>, rows: seq<Row> := [], [];
    for i := 0 to |customers|
      invariant Moved(all, rows) && GroupsBalanced(rows) && rows == AllRows(remittances, treasury)
      invariant SmallJitter(config) ==> NoneSinks(all)
      invariant forall x | x in remittances && x.status == Completed ::
                  x.sourceCurrency in treasury && x.destinationCurrency in treasury
      invariant rng.issued >= old(rng.issued)
    {
      var sender := customers[i];
      if sender.accountId !in walletsByAccount || walletsByAccount[sender.accountId] == [] {
        continue;
      }
      var senderWallets := walletsByAccount[sender.accountId];
      var range := config.remittanceCount(sender.profile);
      var count := rng.NextInt(range.min, range.max);
      var j := 0;
      while j < count
        invariant Moved(all, rows) && GroupsBalanced(rows) && rows == AllRows(remittances, treasury)
        invariant SmallJitter(config) ==> NoneSinks(all)
        invariant forall x | x in remittances && x.status == Completed ::
                    x.sourceCurrency in treasury && x.destinationCurrency in treasury
        invariant rng.issued >= old(rng.issued)
      {
        var built := GenerateOne(config, rng, customers, sender, senderWallets, walletsByAccount, treasury, all);
        if built.Threw? {
          return None;
        }
        if built.Built? {
          AppendRows(rows, built.rows);
          assert (remittances + [built.remittance])[..|remittances|] == remittances;
          remittances, rows := remittances + [built.remittance], rows + built.rows;
        }
        j := j + 1;
      }
    }
    return Some(Generated(remittances, rows));
  }
}
