/** Runs in which balances and ledger come apart: a wallet that pays itself, and two payments that overlap. */
module SettlementAnomalies {
  import opened Wrappers
  import opened Money
  import opened Settlement
  import opened SettlementEffects
  import SettlementRuns
  import C = ConcurrentSettlement

  const ALICE: AccountId := "alice"
  const BOB: AccountId := "bob"
  const USD := Currency("USD", 2)

  function EveryoneApproved(): Ports { Ports((account, amount) => true, (base, quote) => None) }

  function Payment(from: AccountId, to: AccountId, amount: nat): Input { Input(from, to, amount as real, "USD", "USD") }

  function Cost(amount: nat): nat { amount + Fee(amount) }

  /** Two customers and the treasury, each with one wallet. */
  function Three(alice: int, bob: int, treasury: int): seq<Wallet> {
    [Wallet(0, ALICE, USD, alice), Wallet(1, BOB, USD, bob), Wallet(2, TREASURY_ACCOUNT_ID, USD, treasury)]
  }

  function Opened(alice: nat): State { State(Three(alice, 0, 0), [alice, 0, 0], [], [], []) }

  lemma UsdIsSupported()
    ensures CurrencyFrom("USD") == Success(USD)
  {
    assert ToUpper("USD") == "USD";
  }

  /** Everyone finds the wallet that is theirs. */
  lemma Finding(ws: seq<Wallet>, i: nat)
    requires i < 3 && exists a, b, t :: ws == Three(a, b, t)
    ensures Find(ws, ws[i].account, USD) == Some(ws[i])
  {
    assert ws[i] in ws;
    assert |ALICE| == 5 && |BOB| == 3 && |TREASURY_ACCOUNT_ID| == 36;
  }

  lemma ThreeIsWellFormed(alice: nat, bob: nat, treasury: nat)
    ensures WellFormed(Three(alice, bob, treasury))
  {
    assert |ALICE| == 5 && |BOB| == 3 && |TREASURY_ACCOUNT_ID| == 36;
  }

  /** The plan of a payment between two of the three, or of one to itself. */
  lemma PaymentPlan(ws: seq<Wallet>, from: nat, to: nat, amount: nat, id: nat) returns (p: Plan)
    requires from < 3 && to < 3 && exists a, b, t :: ws == Three(a, b, t)
    requires Cost(amount) <= ws[from].balance
    ensures Quote(ws, EveryoneApproved(), Payment(ws[from].account, ws[to].account, amount), id) == Success(p)
    ensures Planned(p, ws[from], ws[to], ws[2], ws[2]) && p.remittance.id == id
    ensures p.remittance.amount == Amount(amount, USD) && p.remittance.fee == Amount(Fee(amount), USD)
  {
    UsdIsSupported();
    Finding(ws, from);
    Finding(ws, to);
    Finding(ws, 2);
    var input := Payment(ws[from].account, ws[to].account, amount);
    assert Admit(EveryoneApproved(), input, USD) == Success(Amount(amount, USD));
    SettlePlans(EveryoneApproved(), input, id, Amount(amount, USD), ws[from], ws[to], ws[2], ws[2]);
    p := Settle(EveryoneApproved(), input, id, Amount(amount, USD), ws[from], ws[to], ws[2], ws[2]).value;
  }

  // ---- A wallet that pays itself

  lemma RunOneMore(actions: seq<SettlementRuns.Action>, a: SettlementRuns.Action)
    ensures SettlementRuns.RunAll(actions + [a]) == SettlementRuns.Step(SettlementRuns.RunAll(actions), a)
  {
    assert (actions + [a])[..|actions|] == actions;
  }

  /** Opening a wallet for an account that has none. */
  lemma OpeningAppends(s: State, account: AccountId, initial: nat)
    requires forall w | w in s.wallets :: w.account != account
    requires forall i :: 0 <= i < |s.wallets| ==> s.wallets[i].id == i
    ensures var s' := SettlementRuns.Step(s, SettlementRuns.Open(account, "USD", initial as real));
            s' == s.(wallets := s.wallets + [Wallet(|s.wallets|, account, USD, initial)],
                     openings := s.openings + [initial])
  {
    UsdIsSupported();
    assert Find(s.wallets, account, USD).None?;
    UpsertIsUpdate(s.wallets, Wallet(|s.wallets|, account, USD, initial));
  }

  function Openings(alice: nat): seq<SettlementRuns.Action> {
    [SettlementRuns.Open(ALICE, "USD", alice as real), SettlementRuns.Open(BOB, "USD", 0.0),
     SettlementRuns.Open(TREASURY_ACCOUNT_ID, "USD", 0.0)]
  }

  lemma OpeningsOpen(alice: nat)
    ensures SettlementRuns.Step(SettlementRuns.Step(
                                  SettlementRuns.Step(SettlementRuns.EMPTY, Openings(alice)[0]), Openings(alice)[1]),
                                Openings(alice)[2]) == Opened(alice)
  {
    assert |ALICE| == 5 && |BOB| == 3 && |TREASURY_ACCOUNT_ID| == 36;
    OpeningAppends(SettlementRuns.EMPTY, ALICE, alice);
    var s1 := SettlementRuns.Step(SettlementRuns.EMPTY, Openings(alice)[0]);
    OpeningAppends(s1, BOB, 0);
    OpeningAppends(SettlementRuns.Step(s1, Openings(alice)[1]), TREASURY_ACCOUNT_ID, 0);
  }

  lemma OpeningsRun(alice: nat)
    ensures SettlementRuns.RunAll(Openings(alice)) == Opened(alice)
  {
    var a := Openings(alice);
    RunOneMore([], a[0]);
    RunOneMore([a[0]], a[1]);
    RunOneMore([a[0], a[1]], a[2]);
    assert [] + [a[0]] == [a[0]] && [a[0]] + [a[1]] == [a[0], a[1]] && [a[0], a[1]] + [a[2]] == a;
    OpeningsOpen(alice);
  }

  /** Whoever pays themselves, once everything is open, gains what the ledger says they paid: amount plus fee. */
  lemma PayingOneselfDrifts(opening: nat, amount: nat)
    requires Cost(amount) <= opening
    ensures var send := SettlementRuns.Send(EveryoneApproved(), Payment(ALICE, ALICE, amount));
            var s := SettlementRuns.RunAll(Openings(opening) + [send]);
            && |s.wallets| == |s.openings| == 3 && |s.remittances| == 1
            && Drift(s, 0) == Cost(amount)
  {
    var s := Opened(opening);
    OpeningsRun(opening);
    RunOneMore(Openings(opening), SettlementRuns.Send(EveryoneApproved(), Payment(ALICE, ALICE, amount)));
    ThreeIsWellFormed(opening, 0, 0);
    assert s.wallets == Three(opening, 0, 0);
    var p := PaymentPlan(s.wallets, 0, 0, amount, 0);
    DriftIsOverwriting(s, p, s.wallets[0], s.wallets[0], s.wallets[2], s.wallets[2], 0);
  }

  // ---- Two payments that overlap

  ghost predicate Reachable(w: C.World) {
    exists worlds, actions :: C.Run(worlds, actions) && worlds[|actions|] == w
  }

  lemma TakeStep(w: C.World, a: C.Action)
    requires Reachable(w) && C.Enabled(w, a)
    ensures Reachable(C.Do(w, a))
  {
    var worlds, actions :| C.Run(worlds, actions) && worlds[|actions|] == w;
    var worlds', actions' := worlds + [C.Do(w, a)], actions + [a];
    forall i | 0 <= i < |actions'| ensures C.Next(worlds'[i], actions'[i], worlds'[i + 1]) {
      assert i < |actions| ==> C.Next(worlds[i], actions[i], worlds[i + 1]);
    }
    assert C.Run(worlds', actions') && worlds'[|actions'|] == C.Do(w, a);
  }

  lemma WorldOpened(alice: nat) returns (w: C.World)
    ensures Reachable(w) && w == C.World(Opened(alice), map[])
  {
    var none: seq<C.Action> := [];
    w := C.World(SettlementRuns.EMPTY, map[]);
    assert C.Run([w], none) && [w][|none|] == w;
    TakeStep(w, C.OpenWallet(ALICE, "USD", alice as real));
    w := C.Do(w, C.OpenWallet(ALICE, "USD", alice as real));
    TakeStep(w, C.OpenWallet(BOB, "USD", 0.0));
    w := C.Do(w, C.OpenWallet(BOB, "USD", 0.0));
    TakeStep(w, C.OpenWallet(TREASURY_ACCOUNT_ID, "USD", 0.0));
    w := C.Do(w, C.OpenWallet(TREASURY_ACCOUNT_ID, "USD", 0.0));
    OpeningsOpen(alice);
  }

  /** Three reads with nothing in between, and a payment in one currency is ready with the plan of its quote. */
  lemma ThreeReads(ws: seq<Wallet>, tx: C.Tx, t: C.TxId, from: nat, to: nat, amount: nat) returns (p: Plan)
    requires from < 3 && to < 3 && exists a, b, c :: ws == Three(a, b, c)
    requires Cost(amount) <= ws[from].balance
    requires tx == C.Tx(EveryoneApproved(), Payment(ws[from].account, ws[to].account, amount), C.Started)
    ensures Planned(p, ws[from], ws[to], ws[2], ws[2]) && p.remittance.id == t && p.remittance.amount.minor == amount
    ensures var p1 := C.Advance(ws, tx, t);
            var p2 := C.Advance(ws, tx.(progress := p1), t);
            && p1.HasSource? && p2.HasWallets?
            && C.Advance(ws, tx.(progress := p2), t) == C.Ready(ws[from], ws[to], ws[2], ws[2], p)
  {
    p := PaymentPlan(ws, from, to, amount, t);
    UsdIsSupported();
    Finding(ws, from);
    Finding(ws, to);
    Finding(ws, 2);
    assert Admit(EveryoneApproved(), tx.input, USD) == Success(Amount(amount, USD));
  }

  /** A payment begins and makes all its reads. */
  lemma BeginThenRead(w: C.World, t: C.TxId, from: nat, to: nat, amount: nat)
    returns (w1: C.World, w2: C.World, w3: C.World, w4: C.World, p: Plan)
    requires t !in w.txs && from < 3 && to < 3 && exists a, b, c :: w.db.wallets == Three(a, b, c)
    requires var ws := w.db.wallets; Cost(amount) <= ws[from].balance
    ensures var ws := w.db.wallets;
            && C.Next(w, C.Begin(t, EveryoneApproved(), Payment(ws[from].account, ws[to].account, amount)), w1)
            && C.Next(w1, C.Read(t), w2) && C.Next(w2, C.Read(t), w3) && C.Next(w3, C.Read(t), w4)
            && Planned(p, ws[from], ws[to], ws[2], ws[2]) && p.remittance.id == t && p.remittance.amount.minor == amount
            && w4 == C.World(w.db,
                             w.txs[t := C.Tx(EveryoneApproved(), Payment(ws[from].account, ws[to].account, amount),
                                                   C.Ready(ws[from], ws[to], ws[2], ws[2], p))])
  {
    var ws := w.db.wallets;
    var input := Payment(ws[from].account, ws[to].account, amount);
    p := ThreeReads(ws, C.Tx(EveryoneApproved(), input, C.Started), t, from, to, amount);
    w1 := C.Do(w, C.Begin(t, EveryoneApproved(), input));
    w2 := C.Do(w1, C.Read(t));
    w3 := C.Do(w2, C.Read(t));
    w4 := C.Do(w3, C.Read(t));
  }

  lemma BeginAndRead(w: C.World, t: C.TxId, from: nat, to: nat, amount: nat) returns (w': C.World, p: Plan)
    requires Reachable(w) && t !in w.txs && from < 3 && to < 3 && exists a, b, c :: w.db.wallets == Three(a, b, c)
    requires var ws := w.db.wallets; Cost(amount) <= ws[from].balance
    ensures Reachable(w') && w'.db == w.db
    ensures var ws := w.db.wallets;
            && Planned(p, ws[from], ws[to], ws[2], ws[2]) && p.remittance.id == t && p.remittance.amount.minor == amount
            && w'.txs == w.txs[t := C.Tx(EveryoneApproved(), Payment(ws[from].account, ws[to].account, amount),
                                         C.Ready(ws[from], ws[to], ws[2], ws[2], p))]
  {
    var ws, w1, w2, w3 := w.db.wallets, w, w, w;
    w1, w2, w3, w', p := BeginThenRead(w, t, from, to, amount);
    TakeStep(w, C.Begin(t, EveryoneApproved(), Payment(ws[from].account, ws[to].account, amount)));
    TakeStep(w1, C.Read(t));
    TakeStep(w2, C.Read(t));
    TakeStep(w3, C.Read(t));
  }

  lemma CommitOne(w: C.World, t: C.TxId) returns (w': C.World)
    requires Reachable(w) && t in w.txs && w.txs[t].progress.Ready?
    ensures Reachable(w') && w'.db == Write(w.db, w.txs[t].progress.plan)
    ensures w'.txs == w.txs[t := w.txs[t].(progress := C.Committed)]
  {
    TakeStep(w, C.Commit(t));
    w' := C.Do(w, C.Commit(t));
  }

  /** Two payments of Alice's have made all their reads before either commits. */
  lemma BothReady(opening: nat, amount: nat) returns (w: C.World, first: Plan, second: Plan)
    requires Cost(amount) <= opening
    ensures Reachable(w) && w.db == Opened(opening) && 0 in w.txs && 1 in w.txs
    ensures var ws := Three(opening, 0, 0);
            && w.txs[0].progress == C.Ready(ws[0], ws[1], ws[2], ws[2], first)
            && Planned(first, ws[0], ws[1], ws[2], ws[2])
            && w.txs[1].progress == C.Ready(ws[0], ws[1], ws[2], ws[2], second)
            && Planned(second, ws[0], ws[1], ws[2], ws[2])
            && first.remittance.amount.minor == amount
  {
    var w0 := WorldOpened(opening);
    var w1;
    w1, first := BeginAndRead(w0, 0, 0, 1, amount);
    w, second := BeginAndRead(w1, 1, 0, 1, amount);
  }

  /** The second commit then undoes the first one's debit, while the ledger has both. */
  lemma OverlappingPaymentsDrift(opening: nat, amount: nat) returns (w: C.World)
    requires Cost(amount) <= opening
    ensures Reachable(w) && |w.db.wallets| == |w.db.openings| == 3 && |w.db.remittances| == 2
    ensures Drift(w.db, 0) == Cost(amount)
  {
    var w0, first, second := BothReady(opening, amount);
    var w1 := CommitOne(w0, 0);
    w := CommitOne(w1, 1);
    OverlapDrifts(opening, amount, first, second);
  }

  lemma OverlapDrifts(opening: nat, amount: nat, first: Plan, second: Plan)
    requires var ws := Three(opening, 0, 0);
             Planned(first, ws[0], ws[1], ws[2], ws[2]) && Planned(second, ws[0], ws[1], ws[2], ws[2])
    requires first.remittance.amount.minor == amount
    ensures var s := Write(Write(Opened(opening), first), second);
            |s.wallets| == |s.openings| == 3 && |s.remittances| == 2 && Drift(s, 0) == Cost(amount)
  {
    ThreeIsWellFormed(opening, 0, 0);
    var ws := Three(opening, 0, 0);
    SecondCommitDrifts(Opened(opening), first, second, ws[0], ws[1], ws[2]);
  }

  /** The second of two plans computed from the same wallets leaves the source off by what the first took from it. */
  lemma SecondCommitDrifts(s: State, first: Plan, second: Plan, src: Wallet, dst: Wallet, ts: Wallet)
    requires WellFormed(s.wallets) && |s.openings| == |s.wallets| && src in s.wallets && dst in s.wallets
    requires ts in s.wallets
    requires Planned(first, src, dst, ts, ts) && Planned(second, src, dst, ts, ts) && src.currency == dst.currency
    requires src != dst && src != ts && dst != ts
    ensures var s' := Write(Write(s, first), second);
            && |s'.wallets| == |s.wallets|
            && Drift(s', src.id) == Drift(s, src.id) + first.remittance.amount.minor + first.remittance.fee.minor
  {
    SettlementRuns.QuoteIsKnown(s.wallets, first, src, dst, ts, ts);
    SavesAreLastWriteWins(s.wallets, first, src.id);
    WritingKeepsWellFormed(s.wallets, first, src, dst, ts, ts);
    DriftIsStaleness(s, first, src, dst, ts, ts, src.id);
    DriftIsStaleness(Write(s, first), second, src, dst, ts, ts, src.id);
  }
}
