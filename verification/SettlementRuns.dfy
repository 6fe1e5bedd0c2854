/** Any sequence of wallet openings and remittances, one after another. */
module SettlementRuns {
  import opened Wrappers
  import opened Money
  import opened Sums
  import opened Settlement
  import opened SettlementEffects
  import Ledger

  /** OpenWalletUseCase: the wallet that would be opened, with a fresh id. */
  function NewWallet(ws: seq<Wallet>, account: AccountId, code: string, initial: real, id: WalletId)
    : Result<Wallet, Error>
  {
    var currency :- CurrencyFrom(code);
    if Find(ws, account, currency).Some? then Failure(WalletAlreadyExists(account, code)) else
      var balance :- FromMinorUnits(initial, currency);
      Success(Wallet(id, account, currency, balance.minor))
  }

  class OpenWalletUseCase {
    const walletRepository: InMemoryWalletRepository

    constructor (walletRepository: InMemoryWalletRepository)
      ensures this.walletRepository == walletRepository
    {
      this.walletRepository := walletRepository;
    }

    method Execute(account: AccountId, code: string, initial: real, id: WalletId) returns (r: Result<Wallet, Error>)
      modifies walletRepository
      ensures r == NewWallet(old(walletRepository.wallets), account, code, initial, id)
      ensures walletRepository.wallets
           == if r.Success? then Upsert(old(walletRepository.wallets), r.value) else old(walletRepository.wallets)
    {
      var currency :- CurrencyFrom(code);
      var existing := walletRepository.FindByAccountIdAndCurrency(account, currency);
      if existing.Some? {
        return Failure(WalletAlreadyExists(account, code));
      }
      var balance :- FromMinorUnits(initial, currency);
      var wallet := Wallet(id, account, currency, balance.minor);
      walletRepository.Save(wallet);
      return Success(wallet);
    }
  }

  // ---- Runs

  datatype Action = Open(account: AccountId, code: string, initial: real) | Send(ports: Ports, input: Input)

  const EMPTY := State([], [], [], [], [])

  /** Fresh ids are the next positions. A rejected request changes nothing. */
  function Step(s: State, a: Action): State {
    match a
    case Open(account, code, initial) =>
      var wallet := NewWallet(s.wallets, account, code, initial, |s.wallets|);
      if wallet.Failure? then s
      else s.(wallets := Upsert(s.wallets, wallet.value), openings := s.openings + [wallet.value.balance])
    case Send(ports, input) =>
      var quote := Quote(s.wallets, ports, input, |s.remittances|);
      if quote.Failure? then s else Write(s, quote.value)
  }

  function RunAll(actions: seq<Action>): State {
    if actions == [] then EMPTY else Step(RunAll(actions[..|actions| - 1]), actions[|actions| - 1])
  }

  /** Sender and recipient are customers, and nobody pays the wallet they pay from. */
  predicate BetweenCustomers(input: Input) {
    && input.sender != TREASURY_ACCOUNT_ID && input.recipient != TREASURY_ACCOUNT_ID
    && (ToUpper(input.source) == ToUpper(input.destination) ==> input.sender != input.recipient)
  }

  // ---- What every run keeps, with no hypothesis at all

  /** Each completed remittance has exactly one event, with the same amounts, and no event is without one. */
  ghost predicate EventsMatch(s: State) {
    && |s.outbox| == |s.remittances|
    && (forall i ::
        0 <= i < |s.remittances| ==> s.remittances[i].id == i && s.outbox[i] == CompletedEvent(s.remittances[i]))
  }

  ghost predicate Sound(s: State) {
    WellFormed(s.wallets) && |s.openings| == |s.wallets| && Ledger.DoubleEntry(s.ledger) && EventsMatch(s)
  }

  lemma OpeningKeepsWellFormed(ws: seq<Wallet>, account: AccountId, code: string, initial: real)
    requires WellFormed(ws)
    ensures var wallet := NewWallet(ws, account, code, initial, |ws|);
            wallet.Success? ==> Upsert(ws, wallet.value) == ws + [wallet.value] && WellFormed(ws + [wallet.value])
  {
    var wallet := NewWallet(ws, account, code, initial, |ws|);
    if wallet.Success? {
      UpsertIsUpdate(ws, wallet.value);
    }
  }

  lemma QuoteIsKnown(ws: seq<Wallet>, p: Plan, src: Wallet, dst: Wallet, ts: Wallet, td: Wallet)
    requires WellFormed(ws) && Planned(p, src, dst, ts, td) && src in ws && dst in ws && ts in ws && td in ws
    ensures PlanKnown(ws, p)
    ensures ws[src.id] == src && ws[dst.id] == dst && ws[ts.id] == ts && ws[td.id] == td
    ensures src.balance >= 0 && dst.balance >= 0 && ts.balance >= 0 && td.balance >= 0
  {
  }

  lemma StepKeepsSound(s: State, a: Action)
    requires Sound(s)
    ensures Sound(Step(s, a))
  {
    match a
    case Open(account, code, initial) =>
      OpeningKeepsWellFormed(s.wallets, account, code, initial);
    case Send(ports, input) =>
      var id := |s.remittances|;
      if Quote(s.wallets, ports, input, id).Success? {
        var p := Quote(s.wallets, ports, input, id).value;
        var src, dst, ts, td := QuotePlans(s.wallets, ports, input, id);
        QuoteIsKnown(s.wallets, p, src, dst, ts, td);
        WritingKeepsWellFormed(s.wallets, p, src, dst, ts, td);
        QuotesBalance(s.wallets, ports, input, id);
        Ledger.PostingKeepsDoubleEntry(s.ledger, p.legs, id);
      }
  }

  lemma {:induction false} EveryRunIsSound(actions: seq<Action>)
    ensures Sound(RunAll(actions))
  {
    if actions == [] {
    } else {
      EveryRunIsSound(actions[..|actions| - 1]);
      StepKeepsSound(RunAll(actions[..|actions| - 1]), actions[|actions| - 1]);
    }
  }

  // ---- What runs between customers keep besides

  function BalanceIn(code: string): Wallet -> int {
    (w: Wallet) => if w.currency.code == code then w.balance else 0
  }

  /** The wallets as they were opened. */
  function AsOpened(s: State): (ws: seq<Wallet>)
    ensures |s.openings| == |s.wallets| ==>
              |ws| == |s.wallets| && forall i :: 0 <= i < |ws| ==> ws[i] == s.wallets[i].(balance := s.openings[i])
  {
    if |s.openings| == |s.wallets| then
      seq(|s.wallets|, i requires 0 <= i < |s.wallets| => s.wallets[i].(balance := s.openings[i]))
    else []
  }

  /** The opening balances of one currency. */
  function OpenedIn(s: State, code: string): int { Sum(AsOpened(s), BalanceIn(code)) }

  lemma SaveMovesSum(ws: seq<Wallet>, x: Wallet, code: string)
    requires (forall i :: 0 <= i < |ws| ==> ws[i].id == i) && x.id < |ws|
    ensures Upsert(ws, x) == ws[x.id := x]
    ensures Sum(Upsert(ws, x), BalanceIn(code))
         == Sum(ws, BalanceIn(code)) + BalanceIn(code)(x) - BalanceIn(code)(ws[x.id])
  {
    UpsertIsUpdate(ws, x);
    Update(ws, x.id, x, BalanceIn(code));
  }

  /** What is written balances out, currency by currency. */
  lemma SavesConserve(ws: seq<Wallet>, p: Plan, src: Wallet, dst: Wallet, ts: Wallet, td: Wallet, code: string)
    requires WellFormed(ws) && Planned(p, src, dst, ts, td) && Distinct(p) && PlanKnown(ws, p)
    requires src in ws && dst in ws && ts in ws && td in ws
    ensures Sum(SaveAll(ws, p), BalanceIn(code)) == Sum(ws, BalanceIn(code))
  {
    QuoteIsKnown(ws, p, src, dst, ts, td);
    SaveMovesSum(ws, p.source, code);
    var ws1 := Upsert(ws, p.source);
    SaveMovesSum(ws1, p.destination, code);
    var ws2 := Upsert(ws1, p.destination);
    SaveMovesSum(ws2, p.treasurySource, code);
    if p.treasuryDestination.Some? {
      SaveMovesSum(Upsert(ws2, p.treasurySource), p.treasuryDestination.value, code);
    }
  }

  ghost predicate Conserved(s: State) {
    Agreement(s) && forall code :: Sum(s.wallets, BalanceIn(code)) == OpenedIn(s, code)
  }

  lemma OneMoreWallet(s: State, wallet: Wallet, code: string)
    requires |s.openings| == |s.wallets|
    ensures var s' := s.(wallets := s.wallets + [wallet], openings := s.openings + [wallet.balance]);
            && Sum(s'.wallets, BalanceIn(code)) == Sum(s.wallets, BalanceIn(code)) + BalanceIn(code)(wallet)
            && OpenedIn(s', code) == OpenedIn(s, code) + BalanceIn(code)(wallet)
  {
    var s' := s.(wallets := s.wallets + [wallet], openings := s.openings + [wallet.balance]);
    Push(s.wallets, wallet, BalanceIn(code));
    assert AsOpened(s') == AsOpened(s) + [wallet];
    Push(AsOpened(s), wallet, BalanceIn(code));
  }

  lemma OpenKeepsConserved(s: State, account: AccountId, code: string, initial: real)
    requires Sound(s) && Conserved(s) && UnknownWalletsUntouched(s)
    ensures var s' := Step(s, Open(account, code, initial));
            |s'.openings| == |s'.wallets| && Conserved(s') && UnknownWalletsUntouched(s')
  {
    var wallet := NewWallet(s.wallets, account, code, initial, |s.wallets|);
    if wallet.Success? {
      OpeningKeepsWellFormed(s.wallets, account, code, initial);
      var s' := s.(wallets := s.wallets + [wallet.value], openings := s.openings + [wallet.value.balance]);
      assert Step(s, Open(account, code, initial)) == s';
      forall c ensures Sum(s'.wallets, BalanceIn(c)) == OpenedIn(s', c) {
        OneMoreWallet(s, wallet.value, c);
      }
      forall w: nat | w < |s'.wallets| ensures Drift(s', w) == 0 {
        if w < |s.wallets| {
          assert Drift(s', w) == Drift(s, w);
        }
      }
    }
  }

  /** No ledger entry mentions a wallet that has not been opened. */
  ghost predicate UnknownWalletsUntouched(s: State) {
    forall w: nat :: w >= |s.wallets| ==> Ledger.WalletNet(s.ledger, w) == 0
  }

  lemma PlanKeepsAgreement(s: State, p: Plan, src: Wallet, dst: Wallet, ts: Wallet, td: Wallet)
    requires Sound(s) && Agreement(s) && Planned(p, src, dst, ts, td) && Distinct(p) && PlanKnown(s.wallets, p)
    requires src in s.wallets && dst in s.wallets && ts in s.wallets && td in s.wallets
    ensures |Write(s, p).wallets| == |s.wallets| && Agreement(Write(s, p))
  {
    QuoteIsKnown(s.wallets, p, src, dst, ts, td);
    SavesAreLastWriteWins(s.wallets, p, p.source.id);
    forall w: nat | w < |s.wallets| ensures Drift(Write(s, p), w) == 0 {
      DriftIsStaleness(s, p, src, dst, ts, td, w);
      assert Drift(s, w) == 0;
    }
  }

  lemma PlanTouchesKnownWallets(s: State, p: Plan, src: Wallet, dst: Wallet, ts: Wallet, td: Wallet)
    requires UnknownWalletsUntouched(s) && Planned(p, src, dst, ts, td) && PlanKnown(s.wallets, p)
    requires |Write(s, p).wallets| == |s.wallets|
    ensures UnknownWalletsUntouched(Write(s, p))
  {
    forall w: nat | w >= |s.wallets| ensures Ledger.WalletNet(Write(s, p).ledger, w) == 0 {
      LegsHaveTheEffect(p, src, dst, ts, td, w);
      Ledger.NetsAfterPosting(s.ledger, p.legs, p.remittance.id, "", p.remittance.id, w);
    }
  }

  lemma PlanKeepsConserved(s: State, p: Plan, src: Wallet, dst: Wallet, ts: Wallet, td: Wallet)
    requires Sound(s) && Conserved(s) && UnknownWalletsUntouched(s)
    requires Planned(p, src, dst, ts, td) && Distinct(p) && PlanKnown(s.wallets, p)
    requires src in s.wallets && dst in s.wallets && ts in s.wallets && td in s.wallets
    ensures var s' := Write(s, p);
            |s'.openings| == |s'.wallets| && Conserved(s') && UnknownWalletsUntouched(s')
  {
    var s' := Write(s, p);
    PlanKeepsAgreement(s, p, src, dst, ts, td);
    PlanTouchesKnownWallets(s, p, src, dst, ts, td);
    QuoteIsKnown(s.wallets, p, src, dst, ts, td);
    WritingKeepsWellFormed(s.wallets, p, src, dst, ts, td);
    forall code ensures Sum(s'.wallets, BalanceIn(code)) == OpenedIn(s', code) {
      SavesConserve(s.wallets, p, src, dst, ts, td, code);
      SameOpenings(s, s', code);
    }
  }

  lemma SameOpenings(s: State, s': State, code: string)
    ensures (&& |s.openings| == |s.wallets| == |s'.wallets| && s'.openings == s.openings
             && forall i :: 0 <= i < |s.wallets| ==> SameWallet(s'.wallets[i], s.wallets[i])) ==>
              OpenedIn(s', code) == OpenedIn(s, code)
  {
    if && |s.openings| == |s.wallets| == |s'.wallets| && s'.openings == s.openings
       && forall i :: 0 <= i < |s.wallets| ==> SameWallet(s'.wallets[i], s.wallets[i]) {
      assert AsOpened(s) == AsOpened(s');
    }
  }

  lemma SendKeepsConserved(s: State, ports: Ports, input: Input)
    requires Sound(s) && Conserved(s) && UnknownWalletsUntouched(s) && BetweenCustomers(input)
    ensures var s' := Step(s, Send(ports, input));
            |s'.openings| == |s'.wallets| && Conserved(s') && UnknownWalletsUntouched(s')
  {
    var id := |s.remittances|;
    if Quote(s.wallets, ports, input, id).Success? {
      var p := Quote(s.wallets, ports, input, id).value;
      var src, dst, ts, td := QuotePlans(s.wallets, ports, input, id);
      QuoteIsKnown(s.wallets, p, src, dst, ts, td);
      PlanKeepsConserved(s, p, src, dst, ts, td);
      assert Step(s, Send(ports, input)) == Write(s, p);
    }
  }

  /**
    In every run of openings and of sends between customers, every balance is its opening plus its ledger
    credits minus debits, and the balances of each currency still sum to what was opened.
  */
  lemma {:induction false} BalancesMatchLedger(actions: seq<Action>)
    requires forall a | a in actions :: a.Send? ==> BetweenCustomers(a.input)
    ensures var s := RunAll(actions); |s.openings| == |s.wallets| && Conserved(s) && UnknownWalletsUntouched(s)
  {
    if actions == [] {
    } else {
      var n := |actions| - 1;
      assert actions[n] in actions && forall a | a in actions[..n] :: a in actions;
      BalancesMatchLedger(actions[..n]);
      EveryRunIsSound(actions[..n]);
      match actions[n]
      case Open(account, code, initial) => OpenKeepsConserved(RunAll(actions[..n]), account, code, initial);
      case Send(ports, input) => SendKeepsConserved(RunAll(actions[..n]), ports, input);
    }
  }

  const MAX_SAFE_INTEGER := 0x1F_FFFF_FFFF_FFFF

  /** So a currency opened with at most 2^53 - 1 minor units never holds a balance that a double cannot represent. */
  lemma BalancesStayExact(actions: seq<Action>, w: nat)
    requires forall a | a in actions :: a.Send? ==> BetweenCustomers(a.input)
    requires var s := RunAll(actions); w < |s.wallets| && |s.openings| == |s.wallets|
    requires var s := RunAll(actions); OpenedIn(s, s.wallets[w].currency.code) <= MAX_SAFE_INTEGER
    ensures 0 <= RunAll(actions).wallets[w].balance <= MAX_SAFE_INTEGER
  {
    var s := RunAll(actions);
    BalancesMatchLedger(actions);
    EveryRunIsSound(actions);
    TermAtMostSum(s.wallets, w, BalanceIn(s.wallets[w].currency.code));
  }
}
