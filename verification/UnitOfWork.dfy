/**
  The transaction bracket around a send. The use case makes its writes one by one and any of them may fail;
  with the Postgres unit of work the database then rolls back, with the in-memory one it stays as it is.
*/
module UnitOfWork {
  import opened Wrappers
  import opened Money
  import opened Settlement
  import opened SettlementEffects
  import opened SettlementRuns
  import Ledger

  const WRITES: nat := 7

  /** The writes of a send, in the order the use case makes them. */
  function WriteOne(s: State, p: Plan, k: nat): State
    requires k < WRITES
  {
    match k
    case 0 => s.(ledger := s.ledger + Ledger.Post(p.legs, p.remittance.id))
    case 1 => s.(wallets := Upsert(s.wallets, p.source))
    case 2 => s.(wallets := Upsert(s.wallets, p.destination))
    case 3 => s.(wallets := Upsert(s.wallets, p.treasurySource))
    case 4 =>
      if p.treasuryDestination.Some? then s.(wallets := Upsert(s.wallets, p.treasuryDestination.value)) else s
    case 5 => s.(remittances := s.remittances + [p.remittance])
    case _ => s.(outbox := s.outbox + [CompletedEvent(p.remittance)])
  }

  /** The wallets after some of the saves; a same-currency send leaves out the fourth. */
  function SavedUpTo(ws: seq<Wallet>, p: Plan, saves: nat): seq<Wallet> {
    var first := if saves >= 1 then Upsert(ws, p.source) else ws;
    var second := if saves >= 2 then Upsert(first, p.destination) else first;
    var third := if saves >= 3 then Upsert(second, p.treasurySource) else second;
    if saves >= 4 && p.treasuryDestination.Some? then Upsert(third, p.treasuryDestination.value) else third
  }

  /** The state after the first k writes. */
  function Partly(s: State, p: Plan, k: nat): State
    requires k <= WRITES
  {
    State(SavedUpTo(s.wallets, p, if k == 0 then 0 else k - 1),
          s.openings,
          if k >= 1 then s.ledger + Ledger.Post(p.legs, p.remittance.id) else s.ledger,
          if k >= 6 then s.remittances + [p.remittance] else s.remittances,
          if k >= 7 then s.outbox + [CompletedEvent(p.remittance)] else s.outbox)
  }

  lemma OneMoreWrite(s: State, p: Plan, k: nat)
    requires k < WRITES
    ensures Partly(s, p, 0) == s
    ensures Partly(s, p, k + 1) == WriteOne(Partly(s, p, k), p, k)
    ensures Partly(s, p, WRITES) == Write(s, p)
  {
  }

  class PostgresUnitOfWork {
    var committed: State

    constructor (initial: State)
      ensures committed == initial
    {
      committed := initial;
    }

    /** BEGIN, the writes, COMMIT; whichever write or commit fails, if one does, everything is rolled back. */
    method RunInTransaction(p: Plan, failsAt: Option<nat>) returns (ok: bool)
      modifies this
      ensures ok <==> failsAt.None? || failsAt.value > WRITES
      ensures committed == if ok then Write(old(committed), p) else old(committed)
    {
      var working := committed;
      OneMoreWrite(committed, p, 0);
      for k := 0 to WRITES
        invariant working == Partly(committed, p, k) && committed == old(committed)
        invariant failsAt.Some? ==> failsAt.value >= k
      {
        if failsAt == Some(k) {
          return false;
        }
        OneMoreWrite(committed, p, k);
        working := WriteOne(working, p, k);
      }
      if failsAt == Some(WRITES) {
        return false;
      }
      committed := working;
      return true;
    }
  }

  /** Every ledger transaction has its remittance, and every remittance its event. */
  ghost predicate Complete(s: State) {
    EventsMatch(s) && forall e | e in s.ledger :: e.transaction < |s.remittances|
  }

  lemma PostedLegsAreInTheLedger(ledger: seq<Ledger.Entry>, legs: seq<Ledger.Leg>, transaction: nat)
    requires |legs| > 0
    ensures var after := ledger + Ledger.Post(legs, transaction);
            && (exists e :: e in after && e.transaction == transaction)
            && forall e | e in after :: e in ledger || e.transaction == transaction
  {
    assert (ledger + Ledger.Post(legs, transaction))[|ledger|] == Ledger.Entry(legs[0], transaction);
  }

  lemma RecordsCompleteIff(s: State, t: State, p: Plan, k: nat)
    requires Complete(s) && |p.legs| > 0 && p.remittance.id == |s.remittances| && k <= WRITES
    requires t.ledger == (if k >= 1 then s.ledger + Ledger.Post(p.legs, p.remittance.id) else s.ledger)
    requires t.remittances == (if k >= 6 then s.remittances + [p.remittance] else s.remittances)
    requires t.outbox == (if k >= 7 then s.outbox + [CompletedEvent(p.remittance)] else s.outbox)
    ensures Complete(t) <==> k == 0 || k == WRITES
  {
    PostedLegsAreInTheLedger(s.ledger, p.legs, p.remittance.id);
  }

  /**
    What the bracket is for: stopped anywhere strictly between, a send leaves a ledger transaction without its
    remittance or a remittance without its event, and only there.
  */
  lemma CompleteIffAllOrNothing(s: State, p: Plan, k: nat)
    requires Complete(s) && |p.legs| > 0 && p.remittance.id == |s.remittances| && k <= WRITES
    ensures Complete(Partly(s, p, k)) <==> k == 0 || k == WRITES
  {
    RecordsCompleteIff(s, Partly(s, p, k), p, k);
  }

  /** So runs of whole sends are complete throughout. */
  lemma {:induction false} EveryRunIsComplete(actions: seq<Action>)
    ensures Complete(RunAll(actions))
  {
    EveryRunIsSound(actions);
    if actions == [] {
    } else {
      var s, a := RunAll(actions[..|actions| - 1]), actions[|actions| - 1];
      EveryRunIsComplete(actions[..|actions| - 1]);
      if a.Send? && Quote(s.wallets, a.ports, a.input, |s.remittances|).Success? {
        var src, dst, ts, td := QuotePlans(s.wallets, a.ports, a.input, |s.remittances|);
        var p := Quote(s.wallets, a.ports, a.input, |s.remittances|).value;
        CompleteIffAllOrNothing(s, p, WRITES);
      }
    }
  }
}
