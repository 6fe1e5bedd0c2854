/** SendRemittanceUseCase and OpenWalletUseCase: what a remittance decides, writes and keeps. */
module Settlement {
  import opened Wrappers
  import opened Money
  import opened Sums
  import Conversion
  import Ledger
  import Outbox

  const TREASURY_ACCOUNT_ID: AccountId := "11111111-1111-4111-8111-111111111111"

  datatype Input = Input(sender: AccountId, recipient: AccountId, amount: real, source: string, destination: string)

  /** The ports a send calls: the compliance check and the exchange-rate provider. */
  datatype Ports = Ports(approves: (AccountId, Amount) -> bool, rate: (string, string) -> Option<real>)

  datatype Remittance = Remittance(
    id: nat, sender: AccountId, recipient: AccountId, source: WalletId, destination: WalletId,
    amount: Amount, fee: Amount, converted: Amount, exchangeRate: Option<real>)

  datatype RemittanceCompleted = RemittanceCompleted(
    remittanceId: nat, sender: AccountId, recipient: AccountId, sourceCurrency: string, sourceAmount: int, fee: int,
    destinationCurrency: string, converted: int, exchangeRate: Option<real>)

  datatype OutboxRow = OutboxRow(topic: string, payload: RemittanceCompleted, broker: Outbox.Broker)

  // ---- Wallets as a list

  function FindIndex(ws: seq<Wallet>, id: WalletId): (i: nat)
    ensures i <= |ws| && (i < |ws| ==> ws[i].id == id) && forall j :: 0 <= j < i ==> ws[j].id != id
  {
    if ws == [] || ws[0].id == id then 0
    else
      assert forall j :: 0 <= j < |ws[1..]| ==> ws[1..][j] == ws[j + 1];
      1 + FindIndex(ws[1..], id)
  }

  function Find(ws: seq<Wallet>, account: AccountId, currency: Currency): (r: Option<Wallet>)
    ensures r.Some? ==> r.value in ws && r.value.account == account && r.value.currency == currency
    ensures r.None? ==> forall w | w in ws :: !(w.account == account && w.currency == currency)
  {
    if ws == [] then None
    else if ws[0].account == account && ws[0].currency == currency then Some(ws[0])
    else Find(ws[1..], account, currency)
  }

  /** Insert or overwrite by id. */
  function Upsert(ws: seq<Wallet>, w: Wallet): seq<Wallet> {
    var i := FindIndex(ws, w.id);
    if i == |ws| then ws + [w] else ws[i := w]
  }

  class InMemoryWalletRepository {
    var wallets: seq<Wallet>

    constructor ()
      ensures wallets == []
    {
      wallets := [];
    }

    method Save(wallet: Wallet)
      modifies this
      ensures wallets == Upsert(old(wallets), wallet)
    {
      var index := 0;
      while index < |wallets| && wallets[index].id != wallet.id
        invariant 0 <= index <= |wallets|
        invariant forall j :: 0 <= j < index ==> wallets[j].id != wallet.id
      {
        index := index + 1;
      }
      if index == |wallets| {
        wallets := wallets + [wallet];
      } else {
        wallets := wallets[index := wallet];
      }
    }

    method FindByAccountIdAndCurrency(account: AccountId, currency: Currency) returns (r: Option<Wallet>)
      ensures r == Find(wallets, account, currency)
    {
      r := Find(wallets, account, currency);
    }
  }

  // ---- The decision

  /** The wallets to write and the legs to post, all computed before the first write. */
  datatype Plan = Plan(
    source: Wallet, destination: Wallet, treasurySource: Wallet, treasuryDestination: Option<Wallet>,
    legs: seq<Ledger.Leg>, remittance: Remittance)

  function Move(from: WalletId, to: WalletId, money: Amount, debited: string, credited: string): seq<Ledger.Leg> {
    [Ledger.Leg(from, Ledger.Debit, money, debited), Ledger.Leg(to, Ledger.Credit, money, credited)]
  }

  function SameCurrencyLegs(src: WalletId, dst: WalletId, ts: WalletId, amount: Amount, fee: Amount): seq<Ledger.Leg> {
    Move(src, dst, amount, "remittance principal debit", "remittance principal credit")
    + Move(src, ts, fee, "remittance fee debit", "remittance fee revenue")
  }

  function CrossCurrencyLegs(src: WalletId, dst: WalletId, ts: WalletId, td: WalletId, amount: Amount, fee: Amount,
                             converted: Amount): seq<Ledger.Leg>
  {
    Move(src, ts, amount, "remittance principal debit", "FX settlement (source leg)")
    + Move(src, ts, fee, "remittance fee debit", "remittance fee revenue")
    + Move(td, dst, converted, "FX settlement (destination leg)", "remittance principal credit")
  }

  /** The amount, if it is an integer, not negative, and approved for this sender. */
  function Admit(ports: Ports, input: Input, currency: Currency): Result<Amount, Error> {
    var amount :- FromMinorUnits(input.amount, currency);
    if ports.approves(input.sender, amount) then Success(amount) else Failure(ComplianceRejected)
  }

  function ConvertAt(ports: Ports, amount: Amount, to: Currency): Result<Amount, Error> {
    var quoted :- Need(ports.rate(amount.currency.code, to.code), RateNotAvailable);
    var rate :- Conversion.NewRate(amount.currency, to, quoted);
    Conversion.Convert(rate, amount)
  }

  function Settle(ports: Ports, input: Input, id: nat, amount: Amount, src: Wallet, dst: Wallet, ts: Wallet, td: Wallet)
    : Result<Plan, Error>
  {
    var fee := Amount(Fee(amount.minor), amount.currency);
    var same := src.currency == dst.currency;
    var converted :- if same then Success(amount) else ConvertAt(ports, amount, dst.currency);
    var exchangeRate :=
      if same then Some(1.0)
      else if amount.minor == 0 then None else Some(converted.minor as real / amount.minor as real);
    var total :- Add(amount, fee);
    var src' :- src.Debit(total);
    var remittance := Remittance(id, input.sender, input.recipient, src.id, dst.id, amount, fee, converted,
                                 exchangeRate);
    if same then
      var ts' :- ts.Credit(fee);
      var dst' :- dst.Credit(amount);
      Success(Plan(src', dst', ts', None, SameCurrencyLegs(src.id, dst.id, ts.id, amount, fee), remittance))
    else
      var ts1 :- ts.Credit(amount);
      var ts' :- ts1.Credit(fee);
      var td' :- td.Debit(converted);
      var dst' :- dst.Credit(converted);
      Success(Plan(src', dst', ts', Some(td'), CrossCurrencyLegs(src.id, dst.id, ts.id, td.id, amount, fee, converted),
                   remittance))
  }

  /** The whole decision, every wallet read from the same list. */
  function Quote(ws: seq<Wallet>, ports: Ports, input: Input, id: nat): Result<Plan, Error> {
    var sourceCurrency :- CurrencyFrom(input.source);
    var destinationCurrency :- CurrencyFrom(input.destination);
    var src :- Need(Find(ws, input.sender, sourceCurrency), WalletNotFound(input.sender, input.source));
    var dst :- Need(Find(ws, input.recipient, destinationCurrency),
                    RecipientWalletNotFound(input.recipient, input.destination));
    var amount :- Admit(ports, input, sourceCurrency);
    var ts :- Need(Find(ws, TREASURY_ACCOUNT_ID, sourceCurrency), TreasuryNotFound(sourceCurrency.code));
    var td :- if sourceCurrency == destinationCurrency then Success(ts)
              else Need(Find(ws, TREASURY_ACCOUNT_ID, destinationCurrency), TreasuryNotFound(destinationCurrency.code));
    Settle(ports, input, id, amount, src, dst, ts, td)
  }

  // ---- The writes

  datatype State = State(
    wallets: seq<Wallet>, openings: seq<int>, ledger: seq<Ledger.Entry>, remittances: seq<Remittance>,
    outbox: seq<OutboxRow>)

  /** The saves in the order the program makes them; of two saves of one wallet the later wins. */
  function SaveAll(ws: seq<Wallet>, p: Plan): seq<Wallet> {
    var saved := Upsert(Upsert(Upsert(ws, p.source), p.destination), p.treasurySource);
    if p.treasuryDestination.Some? then Upsert(saved, p.treasuryDestination.value) else saved
  }

  function CompletedEvent(r: Remittance): OutboxRow {
    OutboxRow("remittance.completed",
              RemittanceCompleted(r.id, r.sender, r.recipient, r.amount.currency.code, r.amount.minor, r.fee.minor,
                                  r.converted.currency.code, r.converted.minor, r.exchangeRate),
              Outbox.Kafka)
  }

  function Write(s: State, p: Plan): State {
    State(SaveAll(s.wallets, p), s.openings, s.ledger + Ledger.Post(p.legs, p.remittance.id),
          s.remittances + [p.remittance], s.outbox + [CompletedEvent(p.remittance)])
  }

  class SendRemittanceUseCase {
    const walletRepository: InMemoryWalletRepository
    const ledgerService: Ledger.LedgerService
    var remittances: seq<Remittance>
    var outbox: seq<OutboxRow>

    constructor (walletRepository: InMemoryWalletRepository, ledgerService: Ledger.LedgerService)
      ensures this.walletRepository == walletRepository && this.ledgerService == ledgerService
      ensures remittances == [] && outbox == []
    {
      this.walletRepository, this.ledgerService, remittances, outbox := walletRepository, ledgerService, [], [];
    }

    function Persisted(openings: seq<int>): State
      reads this, walletRepository, ledgerService
    {
      State(walletRepository.wallets, openings, ledgerService.entries, remittances, outbox)
    }

    /**
      A rejected send, whatever the reason, writes nothing, even with no transaction around it; an accepted
      one writes its whole plan. The remittance id is passed in, as a fresh value.
    */
    method Execute(ports: Ports, input: Input, id: nat, ghost openings: seq<int>) returns (r: Result<Remittance, Error>)
      modifies this, walletRepository, ledgerService
      ensures var quote := Quote(old(walletRepository.wallets), ports, input, id);
              && (quote.Failure? ==> r == Failure(quote.error) && Persisted(openings) == old(Persisted(openings)))
              && (quote.Success? ==>
                    && r == Success(quote.value.remittance)
                    && Persisted(openings) == Write(old(Persisted(openings)), quote.value))
    {
      var sourceCurrency :- CurrencyFrom(input.source);
      var destinationCurrency :- CurrencyFrom(input.destination);
      var foundSource := walletRepository.FindByAccountIdAndCurrency(input.sender, sourceCurrency);
      var source :- Need(foundSource, WalletNotFound(input.sender, input.source));
      var foundDestination := walletRepository.FindByAccountIdAndCurrency(input.recipient, destinationCurrency);
      var destination :- Need(foundDestination, RecipientWalletNotFound(input.recipient, input.destination));

      var amount :- FromMinorUnits(input.amount, sourceCurrency);
      if !ports.approves(input.sender, amount) {
        return Failure(ComplianceRejected);
      }
      var fee := Amount(Fee(amount.minor), amount.currency);
      var isSameCurrency := sourceCurrency == destinationCurrency;
      var treasurySource :- GetTreasuryWallet(sourceCurrency);
      var treasuryDestination := treasurySource;
      if !isSameCurrency {
        treasuryDestination :- GetTreasuryWallet(destinationCurrency);
      }
      var converted := amount;
      var exchangeRate := Some(1.0);
      if !isSameCurrency {
        converted :- ConvertAt(ports, amount, destinationCurrency);
        exchangeRate := if amount.minor == 0 then None else Some(converted.minor as real / amount.minor as real);
      }

      // From here on no currency can mismatch, so only the two debits can still throw.
      var total := Add(amount, fee).value;
      var updatedSource :- source.Debit(total);
      var legs;
      var updatedTreasurySource, updatedDestination, updatedTreasuryDestination;
      if isSameCurrency {
        legs := SameCurrencyLegs(source.id, destination.id, treasurySource.id, amount, fee);
        updatedTreasurySource := treasurySource.Credit(fee).value;
        updatedDestination := destination.Credit(amount).value;
        updatedTreasuryDestination := updatedTreasurySource;
      } else {
        legs := CrossCurrencyLegs(source.id, destination.id, treasurySource.id, treasuryDestination.id, amount, fee,
                                  converted);
        updatedTreasurySource := treasurySource.Credit(amount).value.Credit(fee).value;
        updatedTreasuryDestination :- treasuryDestination.Debit(converted);
        updatedDestination := destination.Credit(converted).value;
      }
      var remittance := Remittance(id, input.sender, input.recipient, source.id, destination.id, amount, fee,
                                   converted, exchangeRate);
      var plan := Plan(updatedSource, updatedDestination, updatedTreasurySource,
                       if isSameCurrency then None else Some(updatedTreasuryDestination), legs, remittance);
      assert Quote(walletRepository.wallets, ports, input, id) == Success(plan);
      QuotesBalance(walletRepository.wallets, ports, input, id);
      Persist(plan, openings);
      return Success(remittance);
    }

    /** Everything a send writes, in this order: ledger, wallets, remittance, outbox row. */
    method Persist(plan: Plan, ghost openings: seq<int>)
      requires Ledger.BalancedPerCurrency(plan.legs)
      modifies this, walletRepository, ledgerService
      ensures Persisted(openings) == Write(old(Persisted(openings)), plan)
    {
      var posted := ledgerService.PostBalancedEntries(plan.legs, plan.remittance.id);
      walletRepository.Save(plan.source);
      walletRepository.Save(plan.destination);
      walletRepository.Save(plan.treasurySource);
      if plan.treasuryDestination.Some? {
        walletRepository.Save(plan.treasuryDestination.value);
      }
      remittances := remittances + [plan.remittance];
      outbox := outbox + [CompletedEvent(plan.remittance)];
    }

    method GetTreasuryWallet(currency: Currency) returns (r: Result<Wallet, Error>)
      ensures r == Need(Find(walletRepository.wallets, TREASURY_ACCOUNT_ID, currency), TreasuryNotFound(currency.code))
    {
      var found := walletRepository.FindByAccountIdAndCurrency(TREASURY_ACCOUNT_ID, currency);
      r := Need(found, TreasuryNotFound(currency.code));
    }
  }

  // ---- Every plan balances

  lemma MovesBalance(from: WalletId, to: WalletId, money: Amount, debited: string, credited: string)
    ensures Ledger.BalancedPerCurrency(Move(from, to, money, debited, credited))
  {
    var move := Move(from, to, money, debited, credited);
    forall code ensures Ledger.Total(move, code, Ledger.Debit) == Ledger.Total(move, code, Ledger.Credit) {
      SumOfTwo(move, Ledger.SideOf(code, Ledger.Debit));
      SumOfTwo(move, Ledger.SideOf(code, Ledger.Credit));
    }
  }

  lemma SumOfTwo<T>(s: seq<T>, f: T -> int)
    requires |s| == 2
    ensures Sum(s, f) == f(s[0]) + f(s[1])
  {
    assert s == [s[0]] + [s[1]];
    Push([s[0]], s[1], f);
  }

  lemma SameCurrencyLegsBalance(src: WalletId, dst: WalletId, ts: WalletId, amount: Amount, fee: Amount)
    ensures Ledger.BalancedPerCurrency(SameCurrencyLegs(src, dst, ts, amount, fee))
  {
    MovesBalance(src, dst, amount, "remittance principal debit", "remittance principal credit");
    MovesBalance(src, ts, fee, "remittance fee debit", "remittance fee revenue");
    Ledger.BalanceOfConcatenation(Move(src, dst, amount, "remittance principal debit", "remittance principal credit"),
                                  Move(src, ts, fee, "remittance fee debit", "remittance fee revenue"));
  }

  lemma CrossCurrencyLegsBalance(src: WalletId, dst: WalletId, ts: WalletId, td: WalletId, amount: Amount, fee: Amount,
                                 converted: Amount)
    ensures Ledger.BalancedPerCurrency(CrossCurrencyLegs(src, dst, ts, td, amount, fee, converted))
  {
    var a := Move(src, ts, amount, "remittance principal debit", "FX settlement (source leg)");
    var b := Move(src, ts, fee, "remittance fee debit", "remittance fee revenue");
    var c := Move(td, dst, converted, "FX settlement (destination leg)", "remittance principal credit");
    MovesBalance(src, ts, amount, "remittance principal debit", "FX settlement (source leg)");
    MovesBalance(src, ts, fee, "remittance fee debit", "remittance fee revenue");
    MovesBalance(td, dst, converted, "FX settlement (destination leg)", "remittance principal credit");
    Ledger.BalanceOfConcatenation(a, b);
    Ledger.BalanceOfConcatenation(a + b, c);
  }

  lemma SettleBalances(ports: Ports, input: Input, id: nat, amount: Amount, src: Wallet, dst: Wallet, ts: Wallet,
                       td: Wallet)
    requires src.currency == ts.currency == amount.currency && dst.currency == td.currency
    ensures var settled := Settle(ports, input, id, amount, src, dst, ts, td);
            && (settled.Success? ==> Ledger.BalancedPerCurrency(settled.value.legs))
            && (settled.Failure? ==> !settled.error.UnbalancedLedger? && !settled.error.CurrencyMismatch?)
  {
    var fee := Amount(Fee(amount.minor), amount.currency);
    if src.currency == dst.currency {
      SameCurrencyLegsBalance(src.id, dst.id, ts.id, amount, fee);
    } else {
      var converted := ConvertAt(ports, amount, dst.currency);
      if converted.Success? {
        CrossCurrencyLegsBalance(src.id, dst.id, ts.id, td.id, amount, fee, converted.value);
      }
    }
  }

  /**
    For every amount, fee and rate, in both leg layouts, the posting balances: the unbalanced-ledger error is
    unreachable, and so is a currency mismatch.
  */
  lemma QuotesBalance(ws: seq<Wallet>, ports: Ports, input: Input, id: nat)
    ensures var quote := Quote(ws, ports, input, id);
            && (quote.Success? ==> Ledger.BalancedPerCurrency(quote.value.legs))
            && (quote.Failure? ==> !quote.error.UnbalancedLedger? && !quote.error.CurrencyMismatch?)
  {
    var sc, dc := CurrencyFrom(input.source), CurrencyFrom(input.destination);
    if sc.Success? && dc.Success? {
      var src, dst := Find(ws, input.sender, sc.value), Find(ws, input.recipient, dc.value);
      var ts, td := Find(ws, TREASURY_ACCOUNT_ID, sc.value), Find(ws, TREASURY_ACCOUNT_ID, dc.value);
      var amount := Admit(ports, input, sc.value);
      if src.Some? && dst.Some? && ts.Some? && td.Some? && amount.Success? {
        SettleBalances(ports, input, id, amount.value, src.value, dst.value, ts.value, td.value);
      }
    }
  }
}
