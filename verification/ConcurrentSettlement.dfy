/**
  Remittances as concurrent transactions: each read sees the latest commit, the writes take effect together
  at commit, and a later write of a wallet overwrites an earlier one.
*/
module ConcurrentSettlement {
  import opened Wrappers
  import opened Money
  import opened Settlement
  import opened SettlementEffects
  import opened SettlementRuns
  import Ledger

  type TxId = nat

  /** How far a transaction has read. */
  datatype Progress =
    | Started
    | HasSource(src: Wallet)
    | HasWallets(src: Wallet, dst: Wallet, amount: Amount)
    | HasTreasury(src: Wallet, dst: Wallet, amount: Amount, ts: Wallet)
    | Ready(src: Wallet, dst: Wallet, ts: Wallet, td: Wallet, plan: Plan)
    | Committed
    | RolledBack

  datatype Tx = Tx(ports: Ports, input: Input, progress: Progress)

  datatype World = World(db: State, txs: map<TxId, Tx>)

  datatype Action =
    | OpenWallet(account: AccountId, code: string, initial: real)
    | Begin(t: TxId, ports: Ports, input: Input)
    | Read(t: TxId)
    | Commit(t: TxId)
    | Abort(t: TxId)

  predicate Active(p: Progress) { !p.Committed? && !p.RolledBack? }

  predicate Enabled(w: World, a: Action) {
    match a
    case OpenWallet(_, _, _) => true
    case Begin(t, _, _) => t !in w.txs
    case Read(t) => t in w.txs && Active(w.txs[t].progress) && !w.txs[t].progress.Ready?
    case Commit(t) => t in w.txs && w.txs[t].progress.Ready?
    case Abort(t) => t in w.txs && Active(w.txs[t].progress)
  }

  function OrRollBack<T>(found: Option<T>, next: T -> Progress): Progress {
    if found.Some? then next(found.value) else RolledBack
  }

  /** The next read of the use case, from the database as it is now, and the checks that follow it. */
  function Advance(ws: seq<Wallet>, tx: Tx, id: nat): Progress {
    var sc, dc := CurrencyFrom(tx.input.source), CurrencyFrom(tx.input.destination);
    if sc.Failure? || dc.Failure? then RolledBack else
      match tx.progress
      case Started =>
        OrRollBack(Find(ws, tx.input.sender, sc.value), src => HasSource(src))
      case HasSource(src) =>
        var dst, amount := Find(ws, tx.input.recipient, dc.value), Admit(tx.ports, tx.input, sc.value);
        if dst.None? || amount.Failure? then RolledBack else HasWallets(src, dst.value, amount.value)
      case HasWallets(src, dst, amount) =>
        var ts := Find(ws, TREASURY_ACCOUNT_ID, sc.value);
        if ts.None? then RolledBack
        else if sc.value == dc.value then PlanOrRollBack(tx, id, amount, src, dst, ts.value, ts.value)
        else HasTreasury(src, dst, amount, ts.value)
      case HasTreasury(src, dst, amount, ts) =>
        var td := Find(ws, TREASURY_ACCOUNT_ID, dc.value);
        if td.None? then RolledBack else PlanOrRollBack(tx, id, amount, src, dst, ts, td.value)
      case _ => tx.progress
  }

  function PlanOrRollBack(tx: Tx, id: nat, amount: Amount, src: Wallet, dst: Wallet, ts: Wallet, td: Wallet): Progress {
    var settled := Settle(tx.ports, tx.input, id, amount, src, dst, ts, td);
    if settled.Failure? then RolledBack else Ready(src, dst, ts, td, settled.value)
  }

  function Goto(w: World, t: TxId, p: Progress): World
    requires t in w.txs
  {
    w.(txs := w.txs[t := w.txs[t].(progress := p)])
  }

  function Do(w: World, a: Action): World
    requires Enabled(w, a)
  {
    match a
    case OpenWallet(account, code, initial) => w.(db := Step(w.db, Open(account, code, initial)))
    case Begin(t, ports, input) => w.(txs := w.txs[t := Tx(ports, input, Started)])
    case Read(t) => Goto(w, t, Advance(w.db.wallets, w.txs[t], t))
    case Commit(t) => Goto(w.(db := Write(w.db, w.txs[t].progress.plan)), t, Committed)
    case Abort(t) => Goto(w, t, RolledBack)
  }

  /** Transactions never disappear, and only a commit commits one. */
  lemma TransactionsAfter(w: World, a: Action)
    requires Enabled(w, a)
    ensures forall t :: t in Do(w, a).txs <==> t in w.txs || (a.Begin? && t == a.t)
    ensures forall t :: IsCommitted(Do(w, a).txs, t) <==> IsCommitted(w.txs, t) || a == Commit(t)
  {
  }

  ghost predicate Next(w: World, a: Action, w': World) {
    Enabled(w, a) && w' == Do(w, a)
  }

  ghost predicate Run(worlds: seq<World>, actions: seq<Action>) {
    && |worlds| == |actions| + 1
    && worlds[0] == World(EMPTY, map[])
    && forall i :: 0 <= i < |actions| ==> Next(worlds[i], actions[i], worlds[i + 1])
  }

  // ---- What survives lost updates

  /** A wallet as some transaction read it: the same wallet still exists, and its balance was not negative. */
  ghost predicate WasRead(ws: seq<Wallet>, w: Wallet, account: AccountId, code: string) {
    Known(ws, w) && w.balance >= 0 && w.account == account && Success(w.currency) == CurrencyFrom(code)
  }

  ghost predicate TxSound(ws: seq<Wallet>, tx: Tx, t: TxId) {
    var i := tx.input;
    match tx.progress
    case HasSource(src) => WasRead(ws, src, i.sender, i.source)
    case HasWallets(src, dst, amount) =>
      WasRead(ws, src, i.sender, i.source) && WasRead(ws, dst, i.recipient, i.destination)
      && amount.minor >= 0 && amount.currency == src.currency
    case HasTreasury(src, dst, amount, ts) =>
      WasRead(ws, src, i.sender, i.source) && WasRead(ws, dst, i.recipient, i.destination)
      && WasRead(ws, ts, TREASURY_ACCOUNT_ID, i.source)
      && amount.minor >= 0 && amount.currency == src.currency != dst.currency
    case Ready(src, dst, ts, td, plan) =>
      WasRead(ws, src, i.sender, i.source) && WasRead(ws, dst, i.recipient, i.destination)
      && WasRead(ws, ts, TREASURY_ACCOUNT_ID, i.source) && WasRead(ws, td, TREASURY_ACCOUNT_ID, i.destination)
      && (src.currency == dst.currency ==> td == ts)
      && Planned(plan, src, dst, ts, td) && Ledger.BalancedPerCurrency(plan.legs) && plan.remittance.id == t
    case _ => true
  }

  /** One event per remittance with its amounts; remittances and committed transactions correspond one to one. */
  ghost predicate EventsMatchCommits(remittances: seq<Remittance>, outbox: seq<OutboxRow>, txs: map<TxId, Tx>) {
    && |outbox| == |remittances|
    && (forall i :: 0 <= i < |remittances| ==> outbox[i] == CompletedEvent(remittances[i]))
    && (forall i, j :: 0 <= i < j < |remittances| ==> remittances[i].id != remittances[j].id)
    && (forall i :: 0 <= i < |remittances| ==> IsCommitted(txs, remittances[i].id))
    && (forall t | IsCommitted(txs, t) :: exists i :: 0 <= i < |remittances| && remittances[i].id == t)
  }

  predicate IsCommitted(txs: map<TxId, Tx>, t: TxId) { t in txs && txs[t].progress.Committed? }

  ghost predicate Inv(w: World) {
    && WellFormed(w.db.wallets) && |w.db.openings| == |w.db.wallets|
    && Ledger.DoubleEntry(w.db.ledger)
    && EventsMatchCommits(w.db.remittances, w.db.outbox, w.txs)
    && (forall t | t in w.txs :: TxSound(w.db.wallets, w.txs[t], t))
  }

  lemma FoundIsRead(ws: seq<Wallet>, account: AccountId, code: string)
    requires WellFormed(ws) && CurrencyFrom(code).Success?
    ensures var found := Find(ws, account, CurrencyFrom(code).value);
            found.Some? ==> WasRead(ws, found.value, account, code)
  {
  }

  lemma ReadKeepsSound(ws: seq<Wallet>, tx: Tx, t: TxId)
    requires WellFormed(ws) && TxSound(ws, tx, t) && Active(tx.progress) && !tx.progress.Ready?
    ensures TxSound(ws, tx.(progress := Advance(ws, tx, t)), t)
  {
    var sc, dc := CurrencyFrom(tx.input.source), CurrencyFrom(tx.input.destination);
    if sc.Success? && dc.Success? {
      match tx.progress
      case Started => FoundIsRead(ws, tx.input.sender, tx.input.source);
      case HasSource(src) => FoundIsRead(ws, tx.input.recipient, tx.input.destination);
      case HasWallets(src, dst, amount) =>
        FoundIsRead(ws, TREASURY_ACCOUNT_ID, tx.input.source);
        var ts := Find(ws, TREASURY_ACCOUNT_ID, sc.value);
        if ts.Some? && sc.value == dc.value {
          SettlePlans(tx.ports, tx.input, t, amount, src, dst, ts.value, ts.value);
          SettleBalances(tx.ports, tx.input, t, amount, src, dst, ts.value, ts.value);
        }
      case HasTreasury(src, dst, amount, ts) =>
        FoundIsRead(ws, TREASURY_ACCOUNT_ID, tx.input.destination);
        var td := Find(ws, TREASURY_ACCOUNT_ID, dc.value);
        if td.Some? {
          SettlePlans(tx.ports, tx.input, t, amount, src, dst, ts, td.value);
          SettleBalances(tx.ports, tx.input, t, amount, src, dst, ts, td.value);
        }
    }
  }

  /** Reads stay good while wallets keep their identity and none disappears. */
  lemma SoundWhileWalletsKeepIdentity(ws: seq<Wallet>, ws': seq<Wallet>, tx: Tx, t: TxId)
    requires TxSound(ws, tx, t) && |ws| <= |ws'|
    requires forall i :: 0 <= i < |ws| ==> SameWallet(ws'[i], ws[i])
    ensures TxSound(ws', tx, t)
  {
  }

  lemma CommitKeepsDatabase(w: World, t: TxId)
    requires Inv(w) && Enabled(w, Commit(t))
    ensures var w' := Do(w, Commit(t));
            && WellFormed(w'.db.wallets) && |w'.db.wallets| == |w.db.wallets| && |w'.db.openings| == |w.db.openings|
            && Ledger.DoubleEntry(w'.db.ledger)
            && forall i :: 0 <= i < |w.db.wallets| ==> SameWallet(w'.db.wallets[i], w.db.wallets[i])
  {
    var tx := w.txs[t];
    assert TxSound(w.db.wallets, tx, t);
    var r := tx.progress;
    WritingKeepsWellFormed(w.db.wallets, r.plan, r.src, r.dst, r.ts, r.td);
    Ledger.PostingKeepsDoubleEntry(w.db.ledger, r.plan.legs, r.plan.remittance.id);
  }

  lemma CommitKeepsEvents(remittances: seq<Remittance>, outbox: seq<OutboxRow>, txs: map<TxId, Tx>, r: Remittance,
                          tx: Tx)
    requires EventsMatchCommits(remittances, outbox, txs) && !IsCommitted(txs, r.id) && tx.progress.Committed?
    ensures EventsMatchCommits(remittances + [r], outbox + [CompletedEvent(r)], txs[r.id := tx])
  {
    var txs', all := txs[r.id := tx], remittances + [r];
    forall t | IsCommitted(txs', t) ensures exists i :: 0 <= i < |all| && all[i].id == t {
      if t == r.id {
        assert all[|remittances|].id == t;
      } else {
        assert IsCommitted(txs, t);
        var i :| 0 <= i < |remittances| && remittances[i].id == t;
        assert all[i].id == t;
      }
    }
  }

  lemma OtherStepsKeepEvents(w: World, a: Action)
    requires Inv(w) && Enabled(w, a) && !a.Commit?
    ensures var w' := Do(w, a); EventsMatchCommits(w'.db.remittances, w'.db.outbox, w'.txs)
  {
    var w' := Do(w, a);
    assert w'.db.remittances == w.db.remittances && w'.db.outbox == w.db.outbox;
    assert forall u :: IsCommitted(w'.txs, u) <==> IsCommitted(w.txs, u);
  }

  /** No step makes a wallet disappear or become another wallet. */
  lemma DatabasePreserved(w: World, a: Action)
    requires Inv(w) && Enabled(w, a)
    ensures var db, db' := w.db, Do(w, a).db;
            && WellFormed(db'.wallets) && |db'.openings| == |db'.wallets| && Ledger.DoubleEntry(db'.ledger)
            && |db.wallets| <= |db'.wallets|
            && forall i :: 0 <= i < |db.wallets| ==> SameWallet(db'.wallets[i], db.wallets[i])
  {
    match a
    case OpenWallet(account, code, initial) => OpeningKeepsWellFormed(w.db.wallets, account, code, initial);
    case Commit(t) => CommitKeepsDatabase(w, t);
    case _ =>
  }

  lemma EventsPreserved(w: World, a: Action)
    requires Inv(w) && Enabled(w, a)
    ensures var w' := Do(w, a); EventsMatchCommits(w'.db.remittances, w'.db.outbox, w'.txs)
  {
    if a.Commit? {
      var tx := w.txs[a.t];
      assert TxSound(w.db.wallets, tx, a.t);
      CommitKeepsEvents(w.db.remittances, w.db.outbox, w.txs, tx.progress.plan.remittance, tx.(progress := Committed));
    } else {
      OtherStepsKeepEvents(w, a);
    }
  }

  lemma InvPreserved(w: World, a: Action)
    requires Inv(w) && Enabled(w, a)
    ensures Inv(Do(w, a))
  {
    var w' := Do(w, a);
    DatabasePreserved(w, a);
    EventsPreserved(w, a);
    forall t | t in w'.txs ensures TxSound(w'.db.wallets, w'.txs[t], t) {
      TxSoundPreserved(w, a, t);
    }
  }

  lemma TxSoundPreserved(w: World, a: Action, t: TxId)
    requires Inv(w) && Enabled(w, a) && t in Do(w, a).txs
    ensures TxSound(Do(w, a).db.wallets, Do(w, a).txs[t], t)
  {
    DatabasePreserved(w, a);
    if t in w.txs {
      SoundWhileWalletsKeepIdentity(w.db.wallets, Do(w, a).db.wallets, w.txs[t], t);
      if a == Read(t) {
        ReadKeepsSound(w.db.wallets, w.txs[t], t);
      }
    }
  }

  /**
    In every interleaving, lost updates included: the ledger nets to zero in every currency, globally and
    inside every transaction; no balance is negative; and committed transactions, remittances and completed
    events correspond one to one, with the same amounts.
  */
  lemma {:induction false} SurvivesLostUpdates(worlds: seq<World>, actions: seq<Action>, i: nat)
    requires Run(worlds, actions) && i < |worlds|
    ensures Inv(worlds[i])
    ensures var w := worlds[i];
            Ledger.DoubleEntry(w.db.ledger) && EventsMatchCommits(w.db.remittances, w.db.outbox, w.txs)
    ensures forall w | w in worlds[i].db.wallets :: w.balance >= 0
  {
    if i == 0 {
    } else {
      SurvivesLostUpdates(worlds, actions, i - 1);
      assert Next(worlds[i - 1], actions[i - 1], worlds[i]);
      InvPreserved(worlds[i - 1], actions[i - 1]);
    }
  }

  /** Every wallet the transaction is about to write still has the balance it read. */
  ghost predicate ReadsAreCurrent(ws: seq<Wallet>, p: Progress) {
    p.Ready?
    && forall w: nat | w < |ws| ::
         ReadBalance(p.plan, p.src, p.dst, p.ts, p.td, w, ws[w].balance) == ws[w].balance
  }

  /**
    Agreement between balances and ledger does not survive lost updates, and this is exactly when a commit
    between customers keeps it: nothing it writes has been changed since it was read.
  */
  lemma CommitKeepsAgreementIff(w: World, t: TxId)
    requires Inv(w) && Enabled(w, Commit(t)) && BetweenCustomers(w.txs[t].input) && Agreement(w.db)
    ensures |Do(w, Commit(t)).db.openings| == |Do(w, Commit(t)).db.wallets|
    ensures Agreement(Do(w, Commit(t)).db) <==> ReadsAreCurrent(w.db.wallets, w.txs[t].progress)
  {
    var tx := w.txs[t];
    assert TxSound(w.db.wallets, tx, t);
    var p := tx.progress;
    assert p.src.currency == p.dst.currency ==>
        SUPPORTED[ToUpper(tx.input.source)] == SUPPORTED[ToUpper(tx.input.destination)];
    WriteKeepsAgreementIff(w.db, p.plan, p.src, p.dst, p.ts, p.td);
  }

  lemma WriteKeepsAgreementIff(s: State, p: Plan, src: Wallet, dst: Wallet, ts: Wallet, td: Wallet)
    requires WellFormed(s.wallets) && PlanKnown(s.wallets, p) && Planned(p, src, dst, ts, td) && Distinct(p)
    requires |s.openings| == |s.wallets| && Agreement(s)
    ensures |Write(s, p).wallets| == |s.wallets|
    ensures Agreement(Write(s, p)) <==>
            forall w: nat | w < |s.wallets| ::
                ReadBalance(p, src, dst, ts, td, w, s.wallets[w].balance) == s.wallets[w].balance
  {
    var s' := Write(s, p);
    SavesAreLastWriteWins(s.wallets, p, p.source.id);
    forall w: nat | w < |s.wallets|
      ensures Drift(s', w) == ReadBalance(p, src, dst, ts, td, w, s.wallets[w].balance) - s.wallets[w].balance
    {
      DriftIsStaleness(s, p, src, dst, ts, td, w);
      assert Drift(s, w) == 0;
    }
  }
}
