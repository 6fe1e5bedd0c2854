/**
  Money, currencies, exchange rates and fees. Amounts are integers of minor units; rates are exact reals.
  Every operation that throws in the program returns a Failure here.
*/
module Money {
  import opened Wrappers
  import opened Rounding

  type WalletId = nat
  type AccountId = string

  datatype Currency = Currency(code: string, exponent: nat)

  datatype Error =
    | UnsupportedCurrency(code: string)
    | WalletNotFound(account: AccountId, code: string)
    | RecipientWalletNotFound(account: AccountId, code: string)
    | TreasuryNotFound(code: string)
    | WalletAlreadyExists(account: AccountId, code: string)
    | AmountNotInteger
    | AmountNegative
    | ComplianceRejected
    | RateNotAvailable
    | RateNotPositive
    | InsufficientFunds(wallet: WalletId)
    | CurrencyMismatch
    | UnbalancedLedger

  const SUPPORTED: map<string, nat> := map["USD" := 2, "BRL" := 2, "EUR" := 2, "GBP" := 2]

  function ToUpper(s: string): string {
    seq(|s|, i requires 0 <= i < |s| => if 'a' <= s[i] <= 'z' then s[i] - 'a' + 'A' else s[i])
  }

  function CurrencyFrom(code: string): (r: Result<Currency, Error>) {
    var normalized := ToUpper(code);
    if normalized in SUPPORTED then Success(Currency(normalized, SUPPORTED[normalized]))
    else Failure(UnsupportedCurrency(code))
  }

  datatype Amount = Amount(minor: int, currency: Currency)

  function FromMinorUnits(units: real, currency: Currency): (r: Result<Amount, Error>)
    ensures r.Success? <==> 0.0 <= units == units.Floor as real
  {
    if units.Floor as real != units then Failure(AmountNotInteger)
    else if units < 0.0 then Failure(AmountNegative)
    else Success(Amount(units.Floor, currency))
  }

  function Add(a: Amount, b: Amount): Result<Amount, Error> {
    if a.currency != b.currency then Failure(CurrencyMismatch)
    else Success(Amount(a.minor + b.minor, a.currency))
  }

  const FEE_PERCENTAGE := 0.005

  /** FlatPercentageFeeCalculator: Money.multiply by 0.5%. */
  function Fee(minor: int): (fee: int)
    ensures minor as real * FEE_PERCENTAGE - 0.5 < fee as real <= minor as real * FEE_PERCENTAGE + 0.5
    ensures minor >= 0 ==> 0 <= fee <= minor
  {
    Round(minor as real * FEE_PERCENTAGE)
  }

  /** Splitting one payment into two changes the total fee by at most one minor unit. */
  lemma FeeOfSplit(a: int, b: int)
    ensures -1 <= Fee(a + b) - (Fee(a) + Fee(b)) <= 1
  {
    var x, y := a as real * FEE_PERCENTAGE, b as real * FEE_PERCENTAGE;
    assert (a + b) as real * FEE_PERCENTAGE == x + y;
    assert -1.5 < (Fee(a + b) - (Fee(a) + Fee(b))) as real < 1.5;
  }

  // ---- Wallets

  datatype Wallet = Wallet(id: WalletId, account: AccountId, currency: Currency, balance: int)
  {
    function Credit(m: Amount): (r: Result<Wallet, Error>)
      ensures r.Success? <==> m.currency == currency
      ensures r.Success? ==> r.value.balance - m.minor == balance && r.value.(balance := balance) == this
    {
      if m.currency != currency then Failure(CurrencyMismatch)
      else Success(this.(balance := balance + m.minor))
    }

    /** A debit succeeds exactly when the wallet can pay, and then never leaves a negative balance. */
    function Debit(m: Amount): (r: Result<Wallet, Error>)
      ensures r.Success? <==> m.currency == currency && m.minor <= balance
      ensures r.Success? ==>
                0 <= r.value.balance && r.value.balance + m.minor == balance && r.value.(balance := balance) == this
    {
      if m.currency != currency then Failure(CurrencyMismatch)
      else if balance < m.minor then Failure(InsufficientFunds(id))
      else Success(this.(balance := balance - m.minor))
    }
  }
}

/** ExchangeRate.convert and the rate table: how far rounding can move an amount. */
module Conversion {
  import opened Wrappers
  import opened Rounding
  import opened Money

  datatype ExchangeRate = ExchangeRate(base: Currency, quote: Currency, rate: real)

  function NewRate(base: Currency, quote: Currency, rate: real): Result<ExchangeRate, Error> {
    if rate <= 0.0 then Failure(RateNotPositive) else Success(ExchangeRate(base, quote, rate))
  }

  /** 10 to an integer power. */
  function Pow10(e: int): (p: real)
    ensures p > 0.0
    decreases if e < 0 then -e else e
  {
    if e == 0 then 1.0 else if e > 0 then 10.0 * Pow10(e - 1) else Pow10(e + 1) / 10.0
  }

  function ConvertMinor(minor: int, rate: real, adjustment: int): int {
    Round(minor as real * rate * Pow10(adjustment))
  }

  function Convert(rate: ExchangeRate, amount: Amount): (r: Result<Amount, Error>)
    ensures rate.rate > 0.0 && amount.minor >= 0 ==> (r.Success? <==> amount.currency == rate.base)
    ensures r.Success? ==> r.value.currency == rate.quote && 0 <= r.value.minor
    ensures r.Success? ==>
              var exact := amount.minor as real * rate.rate * Pow10(rate.quote.exponent - rate.base.exponent);
              exact - 0.5 < r.value.minor as real <= exact + 0.5
  {
    if amount.currency != rate.base then Failure(CurrencyMismatch)
    else
      var converted := ConvertMinor(amount.minor, rate.rate, rate.quote.exponent - rate.base.exponent);
      if converted < 0 then Failure(AmountNegative)
      else Success(Amount(converted, rate.quote))
  }

  lemma ProductsMonotone(a: real, b: real, c: real, d: real)
    requires a <= b && c >= 0.0 && d >= 0.0
    ensures a * c * d <= b * c * d
  {
    MulMonotone(a, b, c);
    MulMonotone(a * c, b * c, d);
  }

  lemma RoundedProducts(a: real, b: real, c: real, d: real)
    requires a <= b && c >= 0.0 && d >= 0.0
    ensures Round(a * c * d) <= Round(b * c * d)
    ensures a * c * d - 0.5 < Round(a * c * d) as real <= a * c * d + 0.5
  {
    ProductsMonotone(a, b, c, d);
    assert (Round(a * c * d) - Round(b * c * d)) as real < 1.0;
  }

  /** A larger amount never converts to less, and rounding moves a conversion by at most half a minor unit. */
  lemma ConvertMonotoneAndClose(a: int, b: int, rate: real, adjustment: int)
    requires rate > 0.0 && a <= b
    ensures ConvertMinor(a, rate, adjustment) <= ConvertMinor(b, rate, adjustment)
    ensures var exact := a as real * rate * Pow10(adjustment);
            exact - 0.5 < ConvertMinor(a, rate, adjustment) as real <= exact + 0.5
  {
    RoundedProducts(a as real, b as real, rate, Pow10(adjustment));
  }

  /** Converting back divides the rounding error of the way there. */
  lemma ErrorOnTheWayBack(x: int, r: real, q: real, y: int)
    requires r * q == 1.0 && q > 0.0 && x as real * r - 0.5 < y as real <= x as real * r + 0.5
    ensures -(0.5 * q) <= y as real * q - x as real <= 0.5 * q
  {
    var error := y as real - x as real * r;
    assert y as real * q - x as real == error * q by {
      calc {
        y as real * q;
        (x as real * r + error) * q;
        x as real * (r * q) + error * q;
      }
    }
    MulMonotone(0.0, 0.5 - error, q);
    MulMonotone(0.0, error + 0.5, q);
  }

  /** There and back at r and 1/r between currencies of equal exponent. */
  lemma RoundTrip(x: int, r: real)
    requires r > 0.0
    ensures var back := ConvertMinor(ConvertMinor(x, r, 0), 1.0 / r, 0);
            && (r >= 1.0 ==> back == x)
            && -(0.5 / r) - 0.5 <= (back - x) as real <= 0.5 / r + 0.5
  {
    var q, y := 1.0 / r, ConvertMinor(x, r, 0);
    assert Pow10(0) == 1.0 && 0.5 * q == 0.5 / r && r * q == 1.0;
    ErrorOnTheWayBack(x, r, q, y);
    var z := y as real * q;
    assert ConvertMinor(y, q, 0) == Round(z);
    if r > 1.0 {
      InverseBelowOne(r, q);
      RoundIs(z, x);
    } else if r == 1.0 {
      RoundIs(x as real, x);
      assert y == x && z == x as real;
    }
  }

  lemma InverseBelowOne(r: real, q: real)
    requires r > 1.0 && r * q == 1.0
    ensures q < 1.0
  {
    if q >= 1.0 {
      MulMonotone(1.0, q, r);
    }
  }

  // ---- The simulated rate table, quoted in units per US dollar

  const RATES_PER_USD: map<string, real> := map["USD" := 1.0, "BRL" := 5.2, "EUR" := 0.92, "GBP" := 0.79]

  /** The quotient of two table entries; any table of positive entries will do. */
  function CrossRate(table: map<string, real>, base: string, quote: string): (r: Option<real>)
    requires forall code | code in table :: table[code] > 0.0
    ensures r.Some? <==> base in table && quote in table
    ensures r.Some? ==> r.value > 0.0
  {
    if base in table && quote in table then Some(table[quote] / table[base]) else None
  }

  function ComputeRate(base: string, quote: string): (r: Option<real>)
    ensures r.Some? <==> base in RATES_PER_USD && quote in RATES_PER_USD
    ensures r.Some? ==> r.value > 0.0
  {
    CrossRate(RATES_PER_USD, base, quote)
  }

  /** Cross rates leave no room for arbitrage: going through a third currency quotes the direct rate. */
  lemma CrossRatesCompose(table: map<string, real>, a: string, b: string, c: string)
    requires forall code | code in table :: table[code] > 0.0
    requires a in table && b in table && c in table
    ensures CrossRate(table, a, b).value * CrossRate(table, b, c).value == CrossRate(table, a, c).value
    ensures CrossRate(table, a, b).value * CrossRate(table, b, a).value == 1.0
  {
    QuotientsCancel(table[a], table[b], table[c]);
    QuotientsCancel(table[a], table[b], table[a]);
  }

  lemma QuotientsCancel(x: real, y: real, z: real)
    requires x > 0.0 && y > 0.0
    ensures (y / x) * (z / y) == z / x
    ensures x / x == 1.0
  {
    var p, q := y / x, z / y;
    assert p * x == y && q * y == z;
    assert (p * q) * x == q * (p * x);
  }
}
