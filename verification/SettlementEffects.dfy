/** How one settlement moves balances and the ledger, wallet by wallet, whichever of its wallets coincide. */
module SettlementEffects {
  import opened Wrappers
  import opened Money
  import opened Sums
  import opened Settlement
  import Ledger

  /** Ids are positions, an account has one wallet per currency, and no balance is negative. */
  ghost predicate WellFormed(ws: seq<Wallet>) {
    && (forall i :: 0 <= i < |ws| ==> ws[i].id == i && ws[i].balance >= 0)
    && (forall i, j :: 0 <= i < j < |ws| ==> !(ws[i].account == ws[j].account && ws[i].currency == ws[j].currency))
  }

  lemma UpsertIsUpdate(ws: seq<Wallet>, w: Wallet)
    requires forall i :: 0 <= i < |ws| ==> ws[i].id == i
    ensures w.id < |ws| ==> Upsert(ws, w) == ws[w.id := w]
    ensures w.id == |ws| ==> Upsert(ws, w) == ws + [w]
  {
    var i := FindIndex(ws, w.id);
    if w.id < |ws| {
      assert ws[w.id].id == w.id;
      assert i < |ws| && ws[i].id == i;
    }
  }

  /** The identity of a wallet, which no save changes. */
  predicate SameWallet(a: Wallet, b: Wallet) {
    a.id == b.id && a.account == b.account && a.currency == b.currency
  }

  /** A plan computed from these four wallets as read; td is ts when only one currency is involved. */
  ghost predicate Planned(p: Plan, src: Wallet, dst: Wallet, ts: Wallet, td: Wallet) {
    var r := p.remittance;
    var a, f, c := r.amount.minor, r.fee.minor, r.converted.minor;
    && src.currency == ts.currency == r.amount.currency == r.fee.currency
    && dst.currency == td.currency == r.converted.currency
    && 0 <= a && 0 <= f <= a && 0 <= c && f == Fee(a)
    && a + f <= src.balance && p.source == src.(balance := src.balance - (a + f))
    && p.destination == dst.(balance := dst.balance + c)
    && (if src.currency == dst.currency then
          c == a && p.treasurySource == ts.(balance := ts.balance + f) && p.treasuryDestination.None?
          && p.legs == SameCurrencyLegs(src.id, dst.id, ts.id, r.amount, r.fee)
        else
          c <= td.balance && p.treasurySource == ts.(balance := ts.balance + (a + f))
          && p.treasuryDestination == Some(td.(balance := td.balance - c))
          && p.legs == CrossCurrencyLegs(src.id, dst.id, ts.id, td.id, r.amount, r.fee, r.converted))
  }

  lemma SettlePlans(ports: Ports, input: Input, id: nat, amount: Amount, src: Wallet, dst: Wallet, ts: Wallet,
                    td: Wallet)
    requires src.currency == ts.currency == amount.currency && dst.currency == td.currency && amount.minor >= 0
    ensures var settled := Settle(ports, input, id, amount, src, dst, ts, td);
            settled.Success? ==>
              && Planned(settled.value, src, dst, ts, td)
              && settled.value.remittance.id == id && settled.value.remittance.amount == amount
              && settled.value.remittance.sender == input.sender
              && settled.value.remittance.recipient == input.recipient
  {
  }

  /** The wallets an accepted send was computed from, all read from the same list. */
  lemma QuotePlans(ws: seq<Wallet>, ports: Ports, input: Input, id: nat)
    returns (src: Wallet, dst: Wallet, ts: Wallet, td: Wallet)
    requires Quote(ws, ports, input, id).Success?
    ensures var p := Quote(ws, ports, input, id).value; Planned(p, src, dst, ts, td) && p.remittance.id == id
    ensures src in ws && dst in ws && ts in ws && td in ws
    ensures src.account == input.sender && dst.account == input.recipient
    ensures ts.account == td.account == TREASURY_ACCOUNT_ID
    ensures src.currency == dst.currency ==> td == ts
    ensures src.currency == dst.currency <==> ToUpper(input.source) == ToUpper(input.destination)
  {
    var sc, dc := CurrencyFrom(input.source).value, CurrencyFrom(input.destination).value;
    src, dst := Find(ws, input.sender, sc).value, Find(ws, input.recipient, dc).value;
    ts, td := Find(ws, TREASURY_ACCOUNT_ID, sc).value, Find(ws, TREASURY_ACCOUNT_ID, dc).value;
    SettlePlans(ports, input, id, Admit(ports, input, sc).value, src, dst, ts, td);
  }

  // ---- What the posting says about a wallet

  function When(b: bool, n: int): int { if b then n else 0 }

  /** Credits minus debits of the plan's legs on one wallet. */
  function Effect(p: Plan, w: WalletId): int {
    var r := p.remittance;
    var a, f, c := r.amount.minor, r.fee.minor, r.converted.minor;
    When(w == p.source.id, -(a + f)) + When(w == p.destination.id, c)
    + When(w == p.treasurySource.id, if p.treasuryDestination.None? then f else a + f)
    + When(p.treasuryDestination.Some? && w == p.treasuryDestination.value.id, -c)
  }

  lemma MoveEffect(from: WalletId, to: WalletId, money: Amount, debited: string, credited: string, w: WalletId)
    ensures Ledger.LegsForWallet(Move(from, to, money, debited, credited), w)
         == When(w == from, -money.minor) + When(w == to, money.minor)
  {
    SumOfTwo(Move(from, to, money, debited, credited), Ledger.LegForWallet(w));
  }

  lemma LegsHaveTheEffect(p: Plan, src: Wallet, dst: Wallet, ts: Wallet, td: Wallet, w: WalletId)
    requires Planned(p, src, dst, ts, td)
    ensures Ledger.LegsForWallet(p.legs, w) == Effect(p, w)
  {
    var r := p.remittance;
    var f := Ledger.LegForWallet(w);
    var fees := Move(src.id, ts.id, r.fee, "remittance fee debit", "remittance fee revenue");
    MoveEffect(src.id, ts.id, r.fee, "remittance fee debit", "remittance fee revenue", w);
    if src.currency == dst.currency {
      var principal := Move(src.id, dst.id, r.amount, "remittance principal debit", "remittance principal credit");
      MoveEffect(src.id, dst.id, r.amount, "remittance principal debit", "remittance principal credit", w);
      Concat(principal, fees, f);
    } else {
      var paid := Move(src.id, ts.id, r.amount, "remittance principal debit", "FX settlement (source leg)");
      var received := Move(td.id, dst.id, r.converted, "FX settlement (destination leg)",
                           "remittance principal credit");
      MoveEffect(src.id, ts.id, r.amount, "remittance principal debit", "FX settlement (source leg)", w);
      MoveEffect(td.id, dst.id, r.converted, "FX settlement (destination leg)", "remittance principal credit", w);
      Concat(paid, fees, f);
      Concat(paid + fees, received, f);
    }
  }

  // ---- What the saves say about a wallet

  /** The balance a wallet is left with: the last save of it, or what it had. */
  function SavedBalance(p: Plan, w: WalletId, current: int): int {
    if p.treasuryDestination.Some? && w == p.treasuryDestination.value.id then p.treasuryDestination.value.balance
    else if w == p.treasurySource.id then p.treasurySource.balance
    else if w == p.destination.id then p.destination.balance
    else if w == p.source.id then p.source.balance
    else current
  }

  /** The wallets a plan was computed from are wallets of this list, whatever their balances are by now. */
  ghost predicate Known(ws: seq<Wallet>, w: Wallet) {
    w.id < |ws| && SameWallet(w, ws[w.id])
  }

  ghost predicate PlanKnown(ws: seq<Wallet>, p: Plan) {
    Known(ws, p.source) && Known(ws, p.destination) && Known(ws, p.treasurySource)
    && (p.treasuryDestination.Some? ==> Known(ws, p.treasuryDestination.value))
  }

  lemma SaveOne(ws: seq<Wallet>, x: Wallet, w: WalletId)
    requires (forall i :: 0 <= i < |ws| ==> ws[i].id == i) && Known(ws, x) && w < |ws|
    ensures var saved := Upsert(ws, x);
            && |saved| == |ws| && (forall i :: 0 <= i < |ws| ==> SameWallet(saved[i], ws[i]))
            && saved[w] == ws[w].(balance := if w == x.id then x.balance else ws[w].balance)
  {
    UpsertIsUpdate(ws, x);
  }

  lemma SavesAreLastWriteWins(ws: seq<Wallet>, p: Plan, w: WalletId)
    requires (forall i :: 0 <= i < |ws| ==> ws[i].id == i) && PlanKnown(ws, p) && w < |ws|
    ensures |SaveAll(ws, p)| == |ws|
    ensures SaveAll(ws, p)[w] == ws[w].(balance := SavedBalance(p, w, ws[w].balance))
  {
    SaveOne(ws, p.source, w);
    var ws1 := Upsert(ws, p.source);
    SaveOne(ws1, p.destination, w);
    var ws2 := Upsert(ws1, p.destination);
    SaveOne(ws2, p.treasurySource, w);
    if p.treasuryDestination.Some? {
      SaveOne(Upsert(ws2, p.treasurySource), p.treasuryDestination.value, w);
    }
  }

  lemma WritingKeepsWellFormed(ws: seq<Wallet>, p: Plan, src: Wallet, dst: Wallet, ts: Wallet, td: Wallet)
    requires WellFormed(ws) && PlanKnown(ws, p) && Planned(p, src, dst, ts, td)
    requires src.balance >= 0 && dst.balance >= 0 && ts.balance >= 0 && td.balance >= 0
    ensures WellFormed(SaveAll(ws, p)) && |SaveAll(ws, p)| == |ws|
    ensures forall i :: 0 <= i < |ws| ==> SameWallet(SaveAll(ws, p)[i], ws[i])
  {
    SavesAreLastWriteWins(ws, p, p.source.id);
    forall i | 0 <= i < |ws| ensures SameWallet(SaveAll(ws, p)[i], ws[i]) && SaveAll(ws, p)[i].balance >= 0 {
      SavesAreLastWriteWins(ws, p, i);
    }
  }

  // ---- Balance against ledger

  /** How far a balance is from its opening plus its ledger entries. */
  function Drift(s: State, w: WalletId): int
    requires w < |s.wallets| && w < |s.openings|
  {
    s.wallets[w].balance - s.openings[w] - Ledger.WalletNet(s.ledger, w)
  }

  ghost predicate Agreement(s: State) {
    |s.openings| == |s.wallets| && forall w: nat :: w < |s.wallets| ==> Drift(s, w) == 0
  }

  /** Writing any plan changes a wallet's drift by what the saves did to it less what the legs say. */
  lemma DriftAfterWrite(s: State, p: Plan, src: Wallet, dst: Wallet, ts: Wallet, td: Wallet, w: WalletId)
    requires WellFormed(s.wallets) && PlanKnown(s.wallets, p) && Planned(p, src, dst, ts, td)
    requires |s.openings| == |s.wallets| && w < |s.wallets|
    ensures |Write(s, p).wallets| == |s.wallets|
    ensures var current := s.wallets[w].balance;
            Drift(Write(s, p), w) == Drift(s, w) + SavedBalance(p, w, current) - current - Effect(p, w)
  {
    SavesAreLastWriteWins(s.wallets, p, w);
    LegsHaveTheEffect(p, src, dst, ts, td, w);
    Ledger.NetsAfterPosting(s.ledger, p.legs, p.remittance.id, "", p.remittance.id, w);
  }

  /** The four wallets are different wallets. */
  ghost predicate Distinct(p: Plan) {
    && p.source.id != p.destination.id && p.source.id != p.treasurySource.id && p.destination.id != p.treasurySource.id
    && (p.treasuryDestination.Some? ==>
          var td := p.treasuryDestination.value.id;
          td != p.source.id && td != p.destination.id && td != p.treasurySource.id)
  }

  /** The balance the plan assumed for a wallet. */
  function ReadBalance(p: Plan, src: Wallet, dst: Wallet, ts: Wallet, td: Wallet, w: WalletId, current: int): int {
    if w == p.source.id then src.balance else if w == p.destination.id then dst.balance
    else if w == p.treasurySource.id then ts.balance
    else if p.treasuryDestination.Some? && w == td.id then td.balance
    else current
  }

  /** With different wallets, a write is off by exactly how stale each balance it was computed from has become. */
  lemma DriftIsStaleness(s: State, p: Plan, src: Wallet, dst: Wallet, ts: Wallet, td: Wallet, w: WalletId)
    requires WellFormed(s.wallets) && PlanKnown(s.wallets, p) && Planned(p, src, dst, ts, td) && Distinct(p)
    requires |s.openings| == |s.wallets| && w < |s.wallets|
    ensures |Write(s, p).wallets| == |s.wallets|
    ensures var current := s.wallets[w].balance;
            Drift(Write(s, p), w) == Drift(s, w) + ReadBalance(p, src, dst, ts, td, w, current) - current
  {
    DriftAfterWrite(s, p, src, dst, ts, td, w);
  }

  /** What the last save of a wallet forgets when wallets coincide. */
  function Forgotten(p: Plan, src: Wallet, dst: Wallet, ts: Wallet, td: Wallet, w: WalletId): int {
    var a, f, c := p.remittance.amount.minor, p.remittance.fee.minor, p.remittance.converted.minor;
    if src.currency == dst.currency then
      if w == ts.id then When(w == src.id, a + f) - When(w == dst.id, a)
      else When(w == dst.id && w == src.id, a + f)
    else When(w == ts.id && w == src.id, a + f) - When(w == td.id && w == dst.id, c)
  }

  /** With current balances, a write is off by exactly that: by amount plus fee when a wallet pays itself. */
  lemma DriftIsOverwriting(s: State, p: Plan, src: Wallet, dst: Wallet, ts: Wallet, td: Wallet, w: WalletId)
    requires WellFormed(s.wallets) && PlanKnown(s.wallets, p) && Planned(p, src, dst, ts, td)
    requires |s.openings| == |s.wallets| && w < |s.wallets|
    requires src in s.wallets && dst in s.wallets && ts in s.wallets && td in s.wallets
    ensures |Write(s, p).wallets| == |s.wallets|
    ensures Drift(Write(s, p), w) - Drift(s, w) == Forgotten(p, src, dst, ts, td, w)
  {
    DriftAfterWrite(s, p, src, dst, ts, td, w);
    assert s.wallets[src.id] == src && s.wallets[dst.id] == dst && s.wallets[ts.id] == ts && s.wallets[td.id] == td;
  }

  /** The wallets are different, or the coinciding ones have nothing to forget. */
  predicate NothingToForget(p: Plan, src: Wallet, dst: Wallet, ts: Wallet, td: Wallet) {
    var a, f, c := p.remittance.amount.minor, p.remittance.fee.minor, p.remittance.converted.minor;
    if src.currency == dst.currency then
      a == 0 || (src != dst && src != ts && dst != ts) || (src == dst == ts && f == 0)
    else (src != ts || a == 0) && (dst != td || c == 0)
  }

  lemma NothingForgottenIff(ws: seq<Wallet>, p: Plan, src: Wallet, dst: Wallet, ts: Wallet, td: Wallet)
    requires WellFormed(ws) && Planned(p, src, dst, ts, td) && src in ws && dst in ws && ts in ws && td in ws
    ensures NothingToForget(p, src, dst, ts, td)
       <==> forall w: nat :: w < |ws| ==> Forgotten(p, src, dst, ts, td, w) == 0
  {
    assert ws[src.id] == src && ws[dst.id] == dst && ws[ts.id] == ts && ws[td.id] == td;
    if forall w: nat :: w < |ws| ==> Forgotten(p, src, dst, ts, td, w) == 0 {
      assert Forgotten(p, src, dst, ts, td, src.id) == 0;
      assert Forgotten(p, src, dst, ts, td, dst.id) == 0;
      assert Forgotten(p, src, dst, ts, td, ts.id) == 0;
    }
  }

  /** Exactly when a send keeps balances and ledger in agreement. */
  lemma SendKeepsAgreementIff(s: State, p: Plan, src: Wallet, dst: Wallet, ts: Wallet, td: Wallet)
    requires WellFormed(s.wallets) && PlanKnown(s.wallets, p) && Planned(p, src, dst, ts, td)
    requires |s.openings| == |s.wallets| && Agreement(s)
    requires src in s.wallets && dst in s.wallets && ts in s.wallets && td in s.wallets
    ensures |Write(s, p).wallets| == |s.wallets|
    ensures Agreement(Write(s, p)) <==> NothingToForget(p, src, dst, ts, td)
  {
    DriftIsOverwriting(s, p, src, dst, ts, td, src.id);
    NothingForgottenIff(s.wallets, p, src, dst, ts, td);
    forall w: nat | w < |s.wallets| ensures Drift(Write(s, p), w) == Forgotten(p, src, dst, ts, td, w) {
      DriftIsOverwriting(s, p, src, dst, ts, td, w);
      assert Drift(s, w) == 0;
    }
  }
}
