/** A key that two endpoints use: the store keeps no account of which of them a response belongs to. */
module CrossedKeys {
  import opened IdempotencyStore
  import opened RedisIdempotency
  import opened Settlement
  import opened SettlementAnomalies
  import P = IdempotencyProtocol
  import C = ConcurrentSettlement
  import S = IdempotentRemittance
  import DoublePayment
  import SettlementRuns

  /** The call opens Alice's wallet, the first of all, and goes on to save its output. */
  lemma OpensWallet(s: S.State, c: P.CallId, opening: nat, output: Response) returns (s': S.State)
    requires S.Reachable(s) && S.Executing(s, c) && S.Serves(s, c, S.Wallets) && !S.IsRemittanceOutput(output)
    requires s.world == S.INIT.world
    ensures S.Reachable(s') && |s'.world.db.wallets| == 1 && s'.world.db.remittances == []
    ensures s'.protocol.redis == s.protocol.redis && s'.protocol.now == s.protocol.now
    ensures s'.protocol.core.slips == s.protocol.core.slips && s'.protocol.lapses == s.protocol.lapses
    ensures s'.protocol.core.calls
         == s.protocol.core.calls[c := s.protocol.core.calls[c].(phase := P.Saving(output))]
    ensures s'.book.endpoints == s.book.endpoints
  {
    UsdIsSupported();
    OpeningAppends(SettlementRuns.EMPTY, ALICE, opening);
    s' := S.TakeStep(s, S.CommitOpening(c, output, true, ALICE, "USD", opening as real));
  }

  lemma SavesOutput(s: S.State, c: P.CallId, output: Response) returns (s': S.State)
    requires S.Reachable(s) && c in s.protocol.core.calls && s.protocol.core.calls[c].phase == P.Saving(output)
    requires var k := s.protocol.core.calls[c].key;
             k in s.protocol.redis && !Expired(s.protocol.redis[k], s.protocol.now)
    ensures S.Reachable(s') && s'.world == s.world && s'.book.endpoints == s.book.endpoints
    ensures var k := s.protocol.core.calls[c].key;
            && s'.protocol.redis == s.protocol.redis[k := Stamped(Completed(output), s.protocol.now)]
            && k in s'.book.savers && s'.book.savers[k] == c
    ensures s'.protocol.core.slips == s.protocol.core.slips && s'.protocol.lapses == s.protocol.lapses
    ensures s'.protocol.now == s.protocol.now
    ensures s'.protocol.core.calls
         == s.protocol.core.calls[c := s.protocol.core.calls[c].(phase := P.Returned(output))]
  {
    s' := S.TakeStep(s, S.Decorator(P.SaveStep(c)));
  }

  /** A later call with the key finds the response and returns it, whatever its endpoint. */
  lemma IsAnswered(s: S.State, c: P.CallId, k: Key, e: S.Endpoint, output: Response) returns (s': S.State)
    requires S.Reachable(s) && c !in s.protocol.core.calls && output.Truthy?
    requires k in s.protocol.redis && s.protocol.redis[k].entry == Completed(output) && k in s.book.savers
    requires !Expired(s.protocol.redis[k], s.protocol.now)
    ensures S.Reachable(s') && s'.world == s.world
    ensures s'.protocol.core.slips == s.protocol.core.slips && s'.protocol.lapses == s.protocol.lapses
    ensures s'.protocol.core.calls == s.protocol.core.calls[c := P.Call(k, P.Returned(output))]
    ensures s'.book.endpoints == s.book.endpoints[c := e]
    ensures s'.book.sources == s.book.sources[c := s.book.savers[k]]
  {
    var s1 := DoublePayment.FindsTaken(s, c, k, e);
    s' := S.TakeStep(s1, S.Decorator(P.FindStep(c)));
    assert s'.protocol.core.calls == s.protocol.core.calls[c := P.Call(k, P.Returned(output))];
  }

  lemma WalletIsOpened(k: Key, opening: nat, output: Response) returns (s: S.State)
    requires !S.IsRemittanceOutput(output)
    ensures S.Reachable(s) && |s.world.db.wallets| == 1 && s.world.db.remittances == []
    ensures s.protocol.now == 0 && k in s.protocol.redis && s.protocol.redis[k] == Stamped(Completed(output), 0)
    ensures s.protocol.core.calls.Keys == {0} && k in s.book.savers && s.book.savers[k] == 0
    ensures S.Serves(s, 0, S.Wallets)
    ensures s.protocol.lapses == multiset{} && s.protocol.core.slips == multiset{}
  {
    S.InitReachable();
    var s1 := DoublePayment.Claims(S.INIT, 0, k, S.Wallets);
    var s2 := OpensWallet(s1, 0, opening, output);
    s := SavesOutput(s2, 0, output);
  }

  /**
    A call opens a wallet; a remittance call then uses the same key. It returns the wallet's output, as if it had
    succeeded: nothing is remitted, although no save was lost and nothing expired.
  */
  lemma WalletAnswersARemittance(k: Key, opening: nat, output: Response) returns (s: S.State)
    requires output.Truthy? && !S.IsRemittanceOutput(output)
    ensures S.Reachable(s) && |s.world.db.wallets| == 1 && s.world.db.remittances == []
    ensures S.Serves(s, 0, S.Wallets) && S.Serves(s, 1, S.Remittances)
    ensures 1 in s.protocol.core.calls && s.protocol.core.calls[1] == P.Call(k, P.Returned(output))
    ensures 1 in s.book.sources && s.book.sources[1] == 0
    ensures !S.ReturnsARemittance(s, 1)
    ensures s.protocol.lapses == multiset{} && s.protocol.core.slips == multiset{}
  {
    var s0 := WalletIsOpened(k, opening, output);
    s := IsAnswered(s0, 1, k, S.Remittances, output);
  }
}
