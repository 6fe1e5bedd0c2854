/** A key that pays twice: its call crashes between commit and save, and a retry comes after the claim has expired. */
module DoublePayment {
  import opened IdempotencyStore
  import opened RedisIdempotency
  import opened Settlement
  import opened SettlementEffects
  import opened SettlementAnomalies
  import P = IdempotencyProtocol
  import R = RedisProtocol
  import C = ConcurrentSettlement
  import S = IdempotentRemittance
  import SettlementRuns

  lemma Opens(s: S.State, account: Money.AccountId, initial: real)
    returns (s': S.State)
    requires S.Reachable(s)
    ensures S.Reachable(s')
    ensures var db' := SettlementRuns.Step(s.world.db, SettlementRuns.Open(account, "USD", initial));
            s' == s.(world := C.World(db', s.world.txs))
  {
    s' := S.TakeStep(s, S.OpenWallet(account, "USD", initial));
  }

  lemma ServiceOpened(alice: nat) returns (s: S.State)
    ensures S.Reachable(s) && s == S.INIT.(world := C.World(Opened(alice), map[]))
  {
    S.InitReachable();
    var s1 := Opens(S.INIT, ALICE, alice as real);
    var s2 := Opens(s1, BOB, 0.0);
    s := Opens(s2, TREASURY_ACCOUNT_ID, 0.0);
    OpeningsOpen(alice);
  }

  lemma Arrives(s: S.State, c: P.CallId, k: Key, e: S.Endpoint) returns (s': S.State)
    requires S.Reachable(s) && c !in s.protocol.core.calls
    ensures S.Reachable(s') && s'.world == s.world && s'.book == s.book.(endpoints := s.book.endpoints[c := e])
    ensures s'.protocol
         == s.protocol.(core := s.protocol.core.(calls := s.protocol.core.calls[c := P.Call(k, P.Claiming)]))
  {
    s' := S.TakeStep(s, S.Arrive(c, k, e));
  }

  /** A call arrives and finds its key taken. */
  lemma FindsTaken(s: S.State, c: P.CallId, k: Key, e: S.Endpoint) returns (s': S.State)
    requires S.Reachable(s) && c !in s.protocol.core.calls
    requires k in s.protocol.redis && !Expired(s.protocol.redis[k], s.protocol.now)
    ensures S.Reachable(s') && s'.world == s.world && s'.book == s.book.(endpoints := s.book.endpoints[c := e])
    ensures s'.protocol
         == s.protocol.(core := s.protocol.core.(calls := s.protocol.core.calls[c := P.Call(k, P.LookingUp)]))
  {
    var s1 := Arrives(s, c, k, e);
    s' := S.TakeStep(s1, S.Decorator(P.ClaimStep(c)));
    assert s'.protocol.core.calls == s.protocol.core.calls[c := P.Call(k, P.LookingUp)];
  }

  /** A call arrives and claims a key that is free or expired. */
  lemma Claims(s: S.State, c: P.CallId, k: Key, e: S.Endpoint) returns (s': S.State)
    requires S.Reachable(s) && c !in s.protocol.core.calls
    requires k in s.protocol.redis ==> Expired(s.protocol.redis[k], s.protocol.now)
    ensures S.Reachable(s') && s'.world == s.world && s'.protocol.now == s.protocol.now
    ensures s'.book == s.book.(endpoints := s.book.endpoints[c := e])
    ensures s'.protocol.redis == s.protocol.redis[k := Stamped(InFlight, s.protocol.now)]
    ensures s'.protocol.core == s.protocol.core.(calls := s.protocol.core.calls[c := P.Call(k, P.Executing)])
    ensures s'.protocol.lapses == if k in s.protocol.redis then s.protocol.lapses + multiset{k} else s.protocol.lapses
  {
    var s1 := Arrives(s, c, k, e);
    s' := S.TakeStep(s1, S.Decorator(P.ClaimStep(c)));
    assert s'.protocol.core.calls == s.protocol.core.calls[c := P.Call(k, P.Executing)];
  }

  lemma DatabaseMoves(s: S.State, a: S.Action, w: C.World)
    returns (s': S.State)
    requires S.Reachable(s) && (a.Begin? || a.Read?) && S.Executing(s, a.c) && S.Serves(s, a.c, S.Remittances)
    requires C.Next(s.world, S.DatabaseStep(s, a).value, w)
    ensures S.Reachable(s') && s' == s.(world := w)
  {
    s' := S.TakeStep(s, a);
  }

  lemma FourMoves(s: S.State, c: P.CallId, input: Input, w1: C.World, w2: C.World, w3: C.World,
                  w4: C.World)
    returns (s': S.State)
    requires S.Reachable(s) && S.Executing(s, c) && S.Serves(s, c, S.Remittances)
    requires C.Next(s.world, C.Begin(c, EveryoneApproved(), input), w1)
    requires C.Next(w1, C.Read(c), w2) && C.Next(w2, C.Read(c), w3) && C.Next(w3, C.Read(c), w4)
    ensures S.Reachable(s') && s' == s.(world := w4)
  {
    var s1 := DatabaseMoves(s, S.Begin(c, EveryoneApproved(), input), w1);
    var s2 := DatabaseMoves(s1, S.Read(c), w2);
    var s3 := DatabaseMoves(s2, S.Read(c), w3);
    s' := DatabaseMoves(s3, S.Read(c), w4);
  }

  /** The call begins its transaction and makes its reads. */
  lemma Reads(s: S.State, c: P.CallId, amount: nat) returns (s': S.State, p: Plan)
    requires S.Reachable(s) && S.Executing(s, c) && S.Serves(s, c, S.Remittances) && c !in s.world.txs
    requires exists a, b, t :: s.world.db.wallets == Three(a, b, t)
    requires Cost(amount) <= s.world.db.wallets[0].balance
    ensures S.Reachable(s') && s'.protocol == s.protocol && s'.book == s.book && s'.world.db == s.world.db
    ensures var ws := s.world.db.wallets;
            && c in s'.world.txs && s'.world.txs[c].progress == C.Ready(ws[0], ws[1], ws[2], ws[2], p)
            && s'.world.txs.Keys == s.world.txs.Keys + {c}
            && Planned(p, ws[0], ws[1], ws[2], ws[2]) && p.remittance.id == c && p.remittance.amount.minor == amount
  {
    var ws := s.world.db.wallets;
    var w1, w2, w3, w4;
    w1, w2, w3, w4, p := BeginThenRead(s.world, c, 0, 1, amount);
    s' := FourMoves(s, c, Payment(ws[0].account, ws[1].account, amount), w1, w2, w3, w4);
  }

  /** The transaction commits, and the call goes on to save. */
  lemma CommitsNow(s: S.State, c: P.CallId, p: Plan) returns (s': S.State)
    requires S.Reachable(s) && S.Executing(s, c) && S.Serves(s, c, S.Remittances)
    requires c in s.world.txs && s.world.txs[c].progress.Ready?
    requires s.world.txs[c].progress.plan == p
    ensures S.Reachable(s') && s'.world.db.wallets == SaveAll(s.world.db.wallets, p)
    ensures s'.world.db.remittances == s.world.db.remittances + [p.remittance]
    ensures s'.world.txs.Keys == s.world.txs.Keys
    ensures s'.protocol.redis == s.protocol.redis && s'.protocol.now == s.protocol.now
    ensures s'.protocol.lapses == s.protocol.lapses
    ensures s'.protocol.core.slips == s.protocol.core.slips
    ensures s'.protocol.core.calls
         == s.protocol.core.calls[c := s.protocol.core.calls[c].(phase := P.Saving(S.ResponseFor(c)))]
  {
    s' := S.TakeStep(s, S.Commit(c, true));
  }

  /** Crashes right away, and some time passes. */
  lemma CrashesAndWaits(s: S.State, c: P.CallId, delay: nat) returns (s': S.State)
    requires S.Reachable(s) && c in s.protocol.core.calls && s.protocol.core.calls[c].phase.Saving?
    ensures S.Reachable(s') && s'.world == s.world
    ensures s'.protocol.redis == s.protocol.redis && s'.protocol.lapses == s.protocol.lapses
    ensures s'.protocol.core.slips == s.protocol.core.slips && s'.protocol.now == s.protocol.now + delay
    ensures s'.protocol.core.calls
         == s.protocol.core.calls[c := s.protocol.core.calls[c].(phase := P.Crashed(true, true))]
  {
    var s1 := S.TakeStep(s, S.Decorator(P.Crash(c)));
    s' := S.TakeStep(s1, S.TimePasses(delay));
  }

  /** What a payment of Alice's to Bob leaves in the three wallets. */
  lemma PaymentMoves(alice: nat, bob: nat, treasury: nat, amount: nat, p: Plan)
    returns (alice': nat, bob': nat, treasury': nat)
    requires Cost(amount) <= alice
    requires var ws := Three(alice, bob, treasury);
             Planned(p, ws[0], ws[1], ws[2], ws[2]) && p.remittance.amount.minor == amount
    ensures SaveAll(Three(alice, bob, treasury), p) == Three(alice', bob', treasury')
    ensures alice' == alice - Cost(amount) && bob' == bob + amount && treasury' == treasury + Money.Fee(amount)
  {
    alice', bob', treasury' := alice - Cost(amount), bob + amount, treasury + Money.Fee(amount);
    var ws := Three(alice, bob, treasury);
    SavesAreLastWriteWins(ws, p, 0);
    SavesAreLastWriteWins(ws, p, 1);
    SavesAreLastWriteWins(ws, p, 2);
  }

  /** What Alice, Bob and the treasury have, and the ids of the payments made. */
  ghost predicate Holdings(s: S.State, alice: int, bob: int, treasury: int, paid: seq<P.CallId>) {
    && s.world.db.wallets == Three(alice, bob, treasury)
    && |s.world.db.remittances| == |paid| && (forall i :: 0 <= i < |paid| ==> s.world.db.remittances[i].id == paid[i])
    && (forall c :: c in s.world.txs <==> c in paid)
  }

  /** The calls and the claims, as far as they matter here. */
  ghost predicate Claimed(s: S.State, redis: Redis, now: nat, calls: map<P.CallId, P.Call>,
                          lapses: multiset<Key>) {
    && s.protocol.redis == redis && s.protocol.now == now && s.protocol.core.calls == calls
    && s.protocol.lapses == lapses && s.protocol.core.slips == multiset{}
  }

  /** A call claims its key and makes its reads. */
  lemma ClaimsAndReads(s: S.State, c: P.CallId, k: Key, amount: nat)
    returns (s': S.State, p: Plan)
    requires S.Reachable(s) && c !in s.protocol.core.calls && c !in s.world.txs
    requires k in s.protocol.redis ==> Expired(s.protocol.redis[k], s.protocol.now)
    requires exists a, b, t :: s.world.db.wallets == Three(a, b, t)
    requires Cost(amount) <= s.world.db.wallets[0].balance && s.protocol.core.slips == multiset{}
    ensures S.Reachable(s') && s'.world.db == s.world.db && s'.world.txs.Keys == s.world.txs.Keys + {c}
    ensures S.Serves(s', c, S.Remittances)
    ensures Claimed(s', s.protocol.redis[k := Stamped(InFlight, s.protocol.now)], s.protocol.now,
                    s.protocol.core.calls[c := P.Call(k, P.Executing)],
                    if k in s.protocol.redis then s.protocol.lapses + multiset{k} else s.protocol.lapses)
    ensures var ws := s.world.db.wallets;
            && c in s'.world.txs && s'.world.txs[c].progress == C.Ready(ws[0], ws[1], ws[2], ws[2], p)
            && Planned(p, ws[0], ws[1], ws[2], ws[2]) && p.remittance.id == c && p.remittance.amount.minor == amount
  {
    var s1 := Claims(s, c, k, S.Remittances);
    s', p := Reads(s1, c, amount);
  }

  lemma UpdatedTwice(calls: map<P.CallId, P.Call>, c: P.CallId, first: P.Call, second: P.Call)
    ensures calls[c := first][c := second] == calls[c := second]
  {
  }

  /** Then it commits, and goes on to save. */
  lemma Pays(s: S.State, c: P.CallId, k: Key, alice: nat, bob: nat, treasury: nat,
             paid: seq<P.CallId>, amount: nat)
    returns (s': S.State, alice': nat, bob': nat, treasury': nat)
    requires S.Reachable(s) && c !in s.protocol.core.calls && c !in paid
    requires k in s.protocol.redis ==> Expired(s.protocol.redis[k], s.protocol.now)
    requires Holdings(s, alice, bob, treasury, paid) && Cost(amount) <= alice && s.protocol.core.slips == multiset{}
    ensures S.Reachable(s') && Holdings(s', alice', bob', treasury', paid + [c])
    ensures alice' == alice - Cost(amount) && bob' == bob + amount && treasury' == treasury + Money.Fee(amount)
    ensures Claimed(s', s.protocol.redis[k := Stamped(InFlight, s.protocol.now)], s.protocol.now,
                    s.protocol.core.calls[c := P.Call(k, P.Saving(S.ResponseFor(c)))],
                    if k in s.protocol.redis then s.protocol.lapses + multiset{k} else s.protocol.lapses)
  {
    var s1, p := ClaimsAndReads(s, c, k, amount);
    s' := CommitsNow(s1, c, p);
    UpdatedTwice(s.protocol.core.calls, c, P.Call(k, P.Executing), P.Call(k, P.Saving(S.ResponseFor(c))));
    alice', bob', treasury' := PaymentMoves(alice, bob, treasury, amount, p);
  }

  /** A call pays and crashes, and some time passes. */
  lemma PaysAndCrashes(s: S.State, c: P.CallId, k: Key, alice: nat, bob: nat, treasury: nat, paid: seq<P.CallId>,
                       amount: nat, delay: nat)
    returns (s': S.State, alice': nat, bob': nat, treasury': nat)
    requires S.Reachable(s) && c !in s.protocol.core.calls && c !in paid && k !in s.protocol.redis
    requires Holdings(s, alice, bob, treasury, paid) && Cost(amount) <= alice && s.protocol.core.slips == multiset{}
    ensures S.Reachable(s') && Holdings(s', alice', bob', treasury', paid + [c])
    ensures alice' == alice - Cost(amount) && bob' == bob + amount && treasury' == treasury + Money.Fee(amount)
    ensures k in s'.protocol.redis && s'.protocol.redis[k] == Stamped(InFlight, s.protocol.now)
    ensures s'.protocol.now == s.protocol.now + delay
    ensures s'.protocol.core.calls.Keys == s.protocol.core.calls.Keys + {c} && s'.protocol.core.calls[c].key == k
    ensures s'.protocol.lapses == s.protocol.lapses && s'.protocol.core.slips == multiset{}
  {
    var s1;
    s1, alice', bob', treasury' := Pays(s, c, k, alice, bob, treasury, paid, amount);
    s' := CrashesAndWaits(s1, c, delay);
  }

  lemma OncePaid(k: Key, opening: nat, amount: nat, delay: nat)
    returns (s: S.State, alice: nat, bob: nat, treasury: nat)
    requires Cost(amount) <= opening
    ensures S.Reachable(s) && Holdings(s, alice, bob, treasury, [] + [0]) && alice == opening - Cost(amount)
    ensures k in s.protocol.redis && s.protocol.redis[k].entry.InFlight?
    ensures Expired(s.protocol.redis[k], s.protocol.now) <==> CLAIM_TTL <= delay
    ensures s.protocol.core.calls.Keys == {0} && s.protocol.core.calls[0].key == k
    ensures s.protocol.lapses == multiset{} && s.protocol.core.slips == multiset{}
  {
    var s0 := ServiceOpened(opening);
    s, alice, bob, treasury := PaysAndCrashes(s0, 0, k, opening, 0, 0, [], amount, delay);
  }

  /** A call that finds the key in flight is told so, and nothing else happens. */
  lemma TurnedAway(s: S.State, c: P.CallId, k: Key) returns (s': S.State)
    requires S.Reachable(s) && c !in s.protocol.core.calls
    requires k in s.protocol.redis && s.protocol.redis[k].entry.InFlight?
    requires !Expired(s.protocol.redis[k], s.protocol.now)
    ensures S.Reachable(s') && s'.world == s.world
    ensures s'.protocol.lapses == s.protocol.lapses && s'.protocol.core.slips == s.protocol.core.slips
    ensures s'.protocol.core.calls == s.protocol.core.calls[c := P.Call(k, P.InFlightError)]
  {
    var s1 := FindsTaken(s, c, k, S.Remittances);
    s' := S.TakeStep(s1, S.Decorator(P.FindStep(c)));
    assert s'.protocol.core.calls == s.protocol.core.calls[c := P.Call(k, P.InFlightError)];
  }

  /**
    A call pays and crashes before it has saved; the client sends the request again after this delay. It pays a
    second time if and only if thirty seconds have passed since the first call's claim, though no save was lost
    and no commit went unreported; before that it is told that the key is in flight.
  */
  lemma RetryPaysAgainIff(k: Key, opening: nat, amount: nat, delay: nat) returns (s: S.State)
    requires Cost(amount) + Cost(amount) <= opening
    ensures S.Reachable(s) && s.protocol.core.slips[k] == 0
    ensures var late := CLAIM_TTL <= delay;
            && |s.world.db.remittances| == (if late then 2 else 1)
            && (forall r | r in s.world.db.remittances :: S.SentFor(s, r, k))
            && |s.world.db.wallets| == 3
            && s.world.db.wallets[0].balance == opening - (if late then 2 * Cost(amount) else Cost(amount))
            && 1 in s.protocol.core.calls
            && s.protocol.core.calls[1] == P.Call(k, if late then P.Saving(S.ResponseFor(1)) else P.InFlightError)
            && s.protocol.lapses[k] == (if late then 1 else 0)
  {
    var s1, alice, bob, treasury := OncePaid(k, opening, amount, delay);
    if CLAIM_TTL <= delay {
      s, alice, bob, treasury := Pays(s1, 1, k, alice, bob, treasury, [] + [0], amount);
    } else {
      s := TurnedAway(s1, 1, k);
    }
  }
}
