/**
  The double-entry ledger: a posting is accepted only when every currency's debits equal its credits.
*/
module Ledger {
  import opened Wrappers
  import opened Money
  import opened Sums

  datatype Direction = Debit | Credit

  datatype Leg = Leg(wallet: WalletId, direction: Direction, money: Amount, description: string)

  datatype Entry = Entry(leg: Leg, transaction: nat)

  /** Debits count up and credits count down, as in the balance check. */
  function Signed(leg: Leg): int {
    if leg.direction.Debit? then leg.money.minor else -leg.money.minor
  }

  function InCurrency(code: string): Leg -> int {
    (leg: Leg) => if leg.money.currency.code == code then Signed(leg) else 0
  }

  /** The debits, or the credits, of one currency. */
  function SideOf(code: string, direction: Direction): Leg -> int {
    (leg: Leg) => if leg.money.currency.code == code && leg.direction == direction then leg.money.minor else 0
  }

  function Net(legs: seq<Leg>, code: string): int { Sum(legs, InCurrency(code)) }

  function Total(legs: seq<Leg>, code: string, direction: Direction): int { Sum(legs, SideOf(code, direction)) }

  /** The double-entry rule itself. */
  ghost predicate BalancedPerCurrency(legs: seq<Leg>) {
    forall code :: Total(legs, code, Debit) == Total(legs, code, Credit)
  }

  lemma {:induction false} NetIsDebitsMinusCredits(legs: seq<Leg>, code: string)
    ensures Net(legs, code) == Total(legs, code, Debit) - Total(legs, code, Credit)
  {
    if legs == [] {
    } else {
      NetIsDebitsMinusCredits(legs[..|legs| - 1], code);
    }
  }

  lemma BalancedIffNetsZero(legs: seq<Leg>)
    ensures BalancedPerCurrency(legs) <==> forall code :: Net(legs, code) == 0
  {
    forall code ensures Net(legs, code) == Total(legs, code, Debit) - Total(legs, code, Credit) {
      NetIsDebitsMinusCredits(legs, code);
    }
  }

  lemma {:induction false} AbsentCurrencyNetsZero(legs: seq<Leg>, code: string)
    requires forall i :: 0 <= i < |legs| ==> legs[i].money.currency.code != code
    ensures Net(legs, code) == 0
  {
    if legs == [] {
    } else {
      var init := legs[..|legs| - 1];
      assert forall i :: 0 <= i < |init| ==> init[i] == legs[i];
      AbsentCurrencyNetsZero(init, code);
    }
  }

  /** The rule ignores the order of the legs, and holds of a concatenation when it holds of both parts. */
  lemma BalanceIgnoresOrder(a: seq<Leg>, b: seq<Leg>)
    requires multiset(a) == multiset(b)
    ensures BalancedPerCurrency(a) <==> BalancedPerCurrency(b)
  {
    forall code, direction ensures Total(a, code, direction) == Total(b, code, direction) {
      Permute(a, b, SideOf(code, direction));
    }
  }

  lemma BalanceOfConcatenation(a: seq<Leg>, b: seq<Leg>)
    requires BalancedPerCurrency(a)
    ensures BalancedPerCurrency(a + b) <==> BalancedPerCurrency(b)
  {
    forall code, direction
      ensures Total(a + b, code, direction) == Total(a, code, direction) + Total(b, code, direction)
    {
      Concat(a, b, SideOf(code, direction));
    }
    assert forall code :: Total(a, code, Debit) == Total(a, code, Credit);
  }

  // ---- The ledger as a growing list of entries

  function Post(legs: seq<Leg>, transaction: nat): (entries: seq<Entry>)
    ensures |entries| == |legs|
    ensures forall i :: 0 <= i < |legs| ==> entries[i] == Entry(legs[i], transaction)
  {
    seq(|legs|, i requires 0 <= i < |legs| => Entry(legs[i], transaction))
  }

  function EntryInCurrency(code: string): Entry -> int {
    (e: Entry) => InCurrency(code)(e.leg)
  }

  function EntryInTransaction(transaction: nat, code: string): Entry -> int {
    (e: Entry) => if e.transaction == transaction then InCurrency(code)(e.leg) else 0
  }

  /** What a ledger entry does to a wallet: credits add, debits take. */
  function ForWallet(wallet: WalletId): Entry -> int {
    (e: Entry) => if e.leg.wallet == wallet then -Signed(e.leg) else 0
  }

  function LegForWallet(wallet: WalletId): Leg -> int {
    (leg: Leg) => if leg.wallet == wallet then -Signed(leg) else 0
  }

  function LedgerNet(entries: seq<Entry>, code: string): int { Sum(entries, EntryInCurrency(code)) }

  function TransactionNet(entries: seq<Entry>, transaction: nat, code: string): int {
    Sum(entries, EntryInTransaction(transaction, code))
  }

  function WalletNet(entries: seq<Entry>, wallet: WalletId): int { Sum(entries, ForWallet(wallet)) }

  function LegsForWallet(legs: seq<Leg>, wallet: WalletId): int { Sum(legs, LegForWallet(wallet)) }

  /** Every currency nets to zero, over the whole ledger and inside every transaction. */
  ghost predicate DoubleEntry(entries: seq<Entry>) {
    && (forall code :: LedgerNet(entries, code) == 0)
    && (forall transaction, code :: TransactionNet(entries, transaction, code) == 0)
  }

  lemma NetsAfterPosting(entries: seq<Entry>, legs: seq<Leg>, t: nat, code: string, transaction: nat, wallet: WalletId)
    ensures LedgerNet(entries + Post(legs, t), code) == LedgerNet(entries, code) + Net(legs, code)
    ensures TransactionNet(entries + Post(legs, t), transaction, code)
         == TransactionNet(entries, transaction, code) + (if transaction == t then Net(legs, code) else 0)
    ensures WalletNet(entries + Post(legs, t), wallet) == WalletNet(entries, wallet) + LegsForWallet(legs, wallet)
  {
    var posted := Post(legs, t);
    Concat(entries, posted, EntryInCurrency(code));
    Concat(entries, posted, EntryInTransaction(transaction, code));
    Concat(entries, posted, ForWallet(wallet));
    Pointwise(posted, EntryInCurrency(code), legs, InCurrency(code));
    Pointwise(posted, ForWallet(wallet), legs, LegForWallet(wallet));
    if transaction == t {
      Pointwise(posted, EntryInTransaction(transaction, code), legs, InCurrency(code));
    } else {
      NothingInOtherTransactions(posted, transaction, code);
    }
  }

  lemma {:induction false} NothingInOtherTransactions(entries: seq<Entry>, transaction: nat, code: string)
    requires forall i :: 0 <= i < |entries| ==> entries[i].transaction != transaction
    ensures TransactionNet(entries, transaction, code) == 0
  {
    if entries == [] {
    } else {
      var init := entries[..|entries| - 1];
      assert forall i :: 0 <= i < |init| ==> init[i] == entries[i];
      NothingInOtherTransactions(init, transaction, code);
    }
  }

  /** Posting balanced legs keeps the double-entry rule, globally and per transaction. */
  lemma PostingKeepsDoubleEntry(entries: seq<Entry>, legs: seq<Leg>, t: nat)
    requires DoubleEntry(entries) && BalancedPerCurrency(legs)
    ensures DoubleEntry(entries + Post(legs, t))
  {
    BalancedIffNetsZero(legs);
    forall code ensures LedgerNet(entries + Post(legs, t), code) == 0 {
      NetsAfterPosting(entries, legs, t, code, t, 0);
    }
    forall transaction, code ensures TransactionNet(entries + Post(legs, t), transaction, code) == 0 {
      NetsAfterPosting(entries, legs, t, code, transaction, 0);
    }
  }

  // ---- The service

  class LedgerService {
    var entries: seq<Entry>

    constructor ()
      ensures entries == []
    {
      entries := [];
    }

    /**
      The map-accumulating check. A rejection names a currency and by how much its debits exceed its credits.
    */
    static method AssertBalancedPerCurrency(legs: seq<Leg>) returns (unbalanced: Option<(string, int)>)
      ensures unbalanced.None? <==> BalancedPerCurrency(legs)
      ensures unbalanced.Some? ==>
                unbalanced.value.1 != 0
                && Total(legs, unbalanced.value.0, Debit) == Total(legs, unbalanced.value.0, Credit)
                  + unbalanced.value.1
    {
      var netByCurrency: map<string, int> := map[];
      for i := 0 to |legs|
        invariant forall j :: 0 <= j < i ==> legs[j].money.currency.code in netByCurrency
        invariant forall code :: Net(legs[..i], code) == if code in netByCurrency then netByCurrency[code] else 0
      {
        var code := legs[i].money.currency.code;
        var net := if code in netByCurrency then netByCurrency[code] else 0;
        netByCurrency := netByCurrency[code := net + Signed(legs[i])];
        assert legs[..i + 1] == legs[..i] + [legs[i]];
        forall c ensures Net(legs[..i + 1], c) == Net(legs[..i], c) + InCurrency(c)(legs[i]) {
          Push(legs[..i], legs[i], InCurrency(c));
        }
      }
      assert legs[..|legs|] == legs;
      BalancedIffNetsZero(legs);
      var pending := netByCurrency.Keys;
      while pending != {}
        invariant pending <= netByCurrency.Keys
        invariant forall code | code in netByCurrency && code !in pending :: netByCurrency[code] == 0
        decreases pending
      {
        var code :| code in pending;
        if netByCurrency[code] != 0 {
          NetIsDebitsMinusCredits(legs, code);
          assert Net(legs, code) != 0;
          return Some((code, netByCurrency[code]));
        }
        pending := pending - {code};
      }
      return None;
    }

    /** Posts all the legs under one transaction id, or nothing. */
    method PostBalancedEntries(legs: seq<Leg>, transaction: nat) returns (r: Result<seq<Entry>, Error>)
      modifies this
      ensures r.Success? <==> BalancedPerCurrency(legs)
      ensures r.Success? ==> r.value == Post(legs, transaction) && entries == old(entries) + r.value
      ensures r.Failure? ==> r.error == UnbalancedLedger && entries == old(entries)
    {
      var unbalanced := AssertBalancedPerCurrency(legs);
      if unbalanced.Some? {
        return Failure(UnbalancedLedger);
      }
      var posted := Post(legs, transaction);
      entries := entries + posted;
      return Success(posted);
    }
  }
}

/** The seed pipeline's row-level copy of the balance check, over raw direction numbers. */
module LedgerRows {
  import opened Money
  import opened Sums
  import Ledger

  /** Direction 1 is a debit and every other number is treated as a credit. */
  datatype RowLeg = RowLeg(wallet: WalletId, currency: string, direction: int, amount: int)

  function InCurrency(code: string): RowLeg -> int {
    (leg: RowLeg) => if leg.currency == code then (if leg.direction == 1 then leg.amount else -leg.amount) else 0
  }

  function Net(legs: seq<RowLeg>, code: string): int { Sum(legs, InCurrency(code)) }

  ghost predicate Balanced(legs: seq<RowLeg>) { forall code :: Net(legs, code) == 0 }

  function AsLeg(leg: RowLeg, exponent: nat): Ledger.Leg {
    Ledger.Leg(leg.wallet, if leg.direction == 1 then Ledger.Debit else Ledger.Credit,
               Amount(leg.amount, Currency(leg.currency, exponent)), "")
  }

  function AsLegs(legs: seq<RowLeg>, exponent: nat): (r: seq<Ledger.Leg>)
    ensures |r| == |legs| && forall i :: 0 <= i < |legs| ==> r[i] == AsLeg(legs[i], exponent)
  {
    seq(|legs|, i requires 0 <= i < |legs| => AsLeg(legs[i], exponent))
  }

  /** The copy accepts exactly what the ledger service accepts. */
  lemma CopyAgreesWithLedgerService(legs: seq<RowLeg>, exponent: nat)
    ensures Balanced(legs) <==> Ledger.BalancedPerCurrency(AsLegs(legs, exponent))
  {
    Ledger.BalancedIffNetsZero(AsLegs(legs, exponent));
    forall code ensures Net(legs, code) == Ledger.Net(AsLegs(legs, exponent), code) {
      Pointwise(legs, InCurrency(code), AsLegs(legs, exponent), Ledger.InCurrency(code));
    }
  }

  method AssertBalancedPerCurrency(legs: seq<RowLeg>) returns (ok: bool)
    ensures ok <==> Balanced(legs)
  {
    var netByCurrency: map<string, int> := map[];
    for i := 0 to |legs|
      invariant forall code :: Net(legs[..i], code) == if code in netByCurrency then netByCurrency[code] else 0
    {
      var signed := if legs[i].direction == 1 then legs[i].amount else -legs[i].amount;
      var code := legs[i].currency;
      netByCurrency := netByCurrency[code := (if code in netByCurrency then netByCurrency[code] else 0) + signed];
      assert legs[..i + 1] == legs[..i] + [legs[i]];
      forall c ensures Net(legs[..i + 1], c) == Net(legs[..i], c) + InCurrency(c)(legs[i]) {
        Push(legs[..i], legs[i], InCurrency(c));
      }
    }
    assert legs[..|legs|] == legs;
    var pending := netByCurrency.Keys;
    while pending != {}
      invariant pending <= netByCurrency.Keys
      invariant forall code | code in netByCurrency && code !in pending :: netByCurrency[code] == 0
      decreases pending
    {
      var code :| code in pending;
      if netByCurrency[code] != 0 {
        assert Net(legs, code) != 0;
        return false;
      }
      pending := pending - {code};
    }
    return true;
  }
}
