/**
  The remittance use case behind the idempotent decorator, as the service is wired: claims and responses are kept
  in Redis, remittances in Postgres. Calls, claims, database transactions and the passing of time interleave.
  A call that holds its key runs one transaction, named after the call; the decorator learns of the commit or
  of the failure, or, for an unacknowledged commit, of a failure that was none.

  The store is not the remittances' own: the endpoints for wallets, accounts and KYC profiles and the consumer of
  sign-up events use the same Redis keys. Their calls are in the machine too, with whatever they return.
*/
module IdempotentRemittance {
  import opened Wrappers
  import opened IdempotencyStore
  import opened RedisIdempotency
  import opened Settlement
  import P = IdempotencyProtocol
  import R = RedisProtocol
  import C = ConcurrentSettlement
  import Money
  import SettlementRuns

  datatype Endpoint = Remittances | Wallets | Others

  /** What is known of the calls beside the protocol: their endpoints, and history. */
  datatype Book = Book(
    endpoints: map<P.CallId, Endpoint>,
    elsewhere: map<P.CallId, Response>,   // what committed calls of other endpoints returned
    savers: map<Key, P.CallId>,           // the call whose save last took effect for a key
    sources: map<P.CallId, P.CallId>)     // the call whose saved response a call has returned

  datatype State = Service(protocol: R.TimedState, world: C.World, book: Book)

  datatype Action =
    | Arrive(c: P.CallId, key: Key, endpoint: Endpoint)
    | Decorator(action: P.Action)
    | TimePasses(elapsed: nat)
    | OpenWallet(account: Money.AccountId, code: string, initial: real)   // by a migration
    | Begin(c: P.CallId, ports: Ports, input: Input)
    | Read(c: P.CallId)
    | Commit(c: P.CallId, acknowledged: bool)
    | CommitOpening(c: P.CallId, response: Response, acknowledged: bool, account: Money.AccountId, code: string,
                    initial: real)
    | CommitElsewhere(c: P.CallId, response: Response, acknowledged: bool)
    | Fail(c: P.CallId)

  const INIT := Service(R.TIMED_INIT, C.World(SettlementRuns.EMPTY, map[]), Book(map[], map[], map[], map[]))

  /** The output of a committed remittance: an object, told apart by the id in it. */
  function ResponseFor(c: P.CallId): (r: Response)
    ensures r.Truthy? && |r.repr| == c
  {
    Truthy(seq(c, i => '1'))
  }

  /** No other endpoint returns such an object. */
  predicate IsRemittanceOutput(r: Response) { r.Truthy? && r == ResponseFor(|r.repr|) }

  predicate Executing(s: State, c: P.CallId) {
    c in s.protocol.core.calls && s.protocol.core.calls[c].phase.Executing?
  }

  predicate Serves(s: State, c: P.CallId, e: Endpoint) { c in s.book.endpoints && s.book.endpoints[c] == e }

  function CommitOf(c: P.CallId, response: Response, acknowledged: bool): P.Action {
    if acknowledged then P.Commit(c, response) else P.CommitUnacknowledged(c, response)
  }

  /** The decorator's part of a step. */
  function ProtocolStep(a: Action): R.TimedAction {
    match a
    case Arrive(c, k, _) => R.Act(P.Arrive(c, k))
    case Decorator(x) => R.Act(x)
    case TimePasses(elapsed) => R.Tick(elapsed)
    case Commit(c, acknowledged) => R.Act(CommitOf(c, ResponseFor(c), acknowledged))
    case CommitOpening(c, response, acknowledged, _, _, _) => R.Act(CommitOf(c, response, acknowledged))
    case CommitElsewhere(c, response, acknowledged) => R.Act(CommitOf(c, response, acknowledged))
    case Fail(c) => R.Act(P.Fail(c))
    case _ => R.Tick(0)
  }

  /** The database's part; a call may fail before its transaction began or after it was rolled back. */
  function DatabaseStep(s: State, a: Action): Option<C.Action> {
    match a
    case OpenWallet(account, code, initial) => Some(C.OpenWallet(account, code, initial))
    case Begin(c, ports, input) => Some(C.Begin(c, ports, input))
    case Read(c) => Some(C.Read(c))
    case Commit(c, _) => Some(C.Commit(c))
    case CommitOpening(_, _, _, account, code, initial) => Some(C.OpenWallet(account, code, initial))
    case Fail(c) => if C.Enabled(s.world, C.Abort(c)) then Some(C.Abort(c)) else None
    case _ => None
  }

  /** The decorator's own actions; commits and failures are the use cases'. */
  predicate DecoratorsOwn(x: P.Action) { !x.Arrive? && !x.Commit? && !x.CommitUnacknowledged? && !x.Fail? }

  /** A use case runs only in a call of its endpoint that holds its key, and ends together with its transaction. */
  predicate InPlace(s: State, a: Action) {
    match a
    case Decorator(x) => DecoratorsOwn(x)
    case Begin(c, _, _) => Executing(s, c) && Serves(s, c, Remittances)
    case Read(c) => Executing(s, c) && Serves(s, c, Remittances)
    case Commit(c, _) => Serves(s, c, Remittances)
    case CommitOpening(c, response, _, account, code, initial) =>
      Serves(s, c, Wallets) && !IsRemittanceOutput(response)
      && SettlementRuns.NewWallet(s.world.db.wallets, account, code, initial, |s.world.db.wallets|).Success?
    case CommitElsewhere(c, response, _) => Serves(s, c, Others) && !IsRemittanceOutput(response)
    case _ => true
  }

  predicate Enabled(s: State, a: Action) {
    && R.TimedEnabled(s.protocol, ProtocolStep(a))
    && (match DatabaseStep(s, a) case Some(x) => C.Enabled(s.world, x) case None => true)
    && InPlace(s, a)
  }

  predicate ElsewhereCommit(a: Action) { a.CommitOpening? || a.CommitElsewhere? }

  predicate IsCommit(a: Action) { a.Commit? || ElsewhereCommit(a) }

  predicate Saves(x: P.Action) { x.SaveStep? || x.SaveUnacknowledged? }

  /** The key of a call. */
  function KeyOf(s: State, c: P.CallId): Key
    requires c in s.protocol.core.calls
  {
    s.protocol.core.calls[c].key
  }

  function Noted(s: State, a: Action): Book
    requires Enabled(s, a)
  {
    var b := s.book;
    match a
    case Arrive(c, _, endpoint) => b.(endpoints := b.endpoints[c := endpoint])
    case CommitOpening(c, response, _, _, _, _) => b.(elsewhere := b.elsewhere[c := response])
    case CommitElsewhere(c, response, _) => b.(elsewhere := b.elsewhere[c := response])
    case Decorator(x) =>
      if x.SaveStep? then b.(savers := b.savers[KeyOf(s, x.c) := x.c], sources := b.sources[x.c := x.c])
      else if x.SaveUnacknowledged? then b.(savers := b.savers[KeyOf(s, x.c) := x.c])
      else if x.FindStep? && KeyOf(s, x.c) in b.savers then
        b.(sources := b.sources[x.c := b.savers[KeyOf(s, x.c)]])
      else b
    case _ => b
  }

  function Do(s: State, a: Action): State
    requires Enabled(s, a)
  {
    Service(R.TimedDo(s.protocol, ProtocolStep(a)),
            match DatabaseStep(s, a) case Some(x) => C.Do(s.world, x) case None => s.world,
            Noted(s, a))
  }

  ghost predicate Next(s: State, a: Action, s': State) {
    Enabled(s, a) && s' == Do(s, a)
  }

  ghost predicate Run(states: seq<State>, actions: seq<Action>) {
    && |states| == |actions| + 1
    && states[0] == INIT
    && forall i :: 0 <= i < |actions| ==> Next(states[i], actions[i], states[i + 1])
  }

  // ---- The invariant

  /** Its use case has committed: a remittance in the database, or something elsewhere. */
  predicate HasCommitted(s: State, c: P.CallId) { C.IsCommitted(s.world.txs, c) || c in s.book.elsewhere }

  /** What the use case of a committed call returned. */
  function OutputOf(s: State, c: P.CallId): Response {
    if c in s.book.elsewhere then s.book.elsewhere[c] else ResponseFor(c)
  }

  /** The calls for a key, of any endpoint, whose use case has committed. */
  function Commits(s: State, k: Key): set<P.CallId> {
    set c | c in s.protocol.core.calls && KeyOf(s, c) == k && HasCommitted(s, c)
  }

  predicate PastExecuting(p: P.Phase) { !p.Claiming? && !p.Executing? }

  /** Transactions belong to remittance calls that claimed, other commits to other calls, and both end execution. */
  ghost predicate WorkBelongsToCalls(s: State) {
    && (forall c :: c in s.book.endpoints <==> c in s.protocol.core.calls)
    && (forall c | c in s.world.txs ::
          && c in s.protocol.core.calls && Serves(s, c, Remittances) && !s.protocol.core.calls[c].phase.Claiming?
          && (C.IsCommitted(s.world.txs, c) ==> PastExecuting(s.protocol.core.calls[c].phase)))
    && (forall c | c in s.book.elsewhere ::
          && c in s.protocol.core.calls && !Serves(s, c, Remittances) && !IsRemittanceOutput(s.book.elsewhere[c])
          && PastExecuting(s.protocol.core.calls[c].phase))
  }

  /** The commits the decorator's history records for a key are those of its calls. */
  ghost predicate HistoryIsCommits(s: State, k: Key) {
    var history := P.Committed(s.protocol.core, k);
    |history| == |Commits(s, k)| && forall r | r in history :: exists c :: c in Commits(s, k) && r == OutputOf(s, c)
  }

  /** A call has this response from the use case of the source, a committed call of the same key. */
  predicate From(s: State, c: P.CallId, response: Response, source: P.CallId) {
    c in s.protocol.core.calls && source in Commits(s, KeyOf(s, c)) && response == OutputOf(s, source)
  }

  ghost predicate SavingTheirOwn(s: State) {
    forall c | c in s.protocol.core.calls && s.protocol.core.calls[c].phase.Saving? ::
      From(s, c, s.protocol.core.calls[c].phase.response, c)
  }

  ghost predicate StoredBySavers(s: State) {
    forall k | k in s.protocol.redis && s.protocol.redis[k].entry.Completed? ::
      k in s.book.savers && s.book.savers[k] in Commits(s, k)
      && s.protocol.redis[k].entry.response == OutputOf(s, s.book.savers[k])
  }

  ghost predicate ReturnedFromSources(s: State) {
    forall c | c in s.protocol.core.calls && s.protocol.core.calls[c].phase.Returned? ::
      c in s.book.sources && From(s, c, s.protocol.core.calls[c].phase.response, s.book.sources[c])
  }

  ghost predicate OutputsTraced(s: State) { SavingTheirOwn(s) && StoredBySavers(s) && ReturnedFromSources(s) }

  ghost predicate Inv(s: State) {
    && R.TimedReachable(s.protocol) && C.Inv(s.world)
    && WorkBelongsToCalls(s) && OutputsTraced(s)
    && forall k :: HistoryIsCommits(s, k)
  }

  // ---- What a step does

  ghost predicate CallsMove(s: State, a: Action, s': State) {
    var calls, calls' := s.protocol.core.calls, s'.protocol.core.calls;
    && (forall d :: d in calls' <==> d in calls || (a.Arrive? && d == a.c))
    && (forall d | d in calls :: calls'[d].key == calls[d].key)
    && (forall d | d in calls && !calls[d].phase.Claiming? :: !calls'[d].phase.Claiming?)
    && (forall d | d in calls && PastExecuting(calls[d].phase) :: PastExecuting(calls'[d].phase))
    && (IsCommit(a) || a.Begin? ==> a.c in calls && calls[a.c].phase.Executing?)
    && (IsCommit(a) ==> PastExecuting(calls'[a.c].phase))
  }

  ghost predicate TransactionsMove(s: State, a: Action, s': State) {
    var txs, txs' := s.world.txs, s'.world.txs;
    && (forall t :: t in txs' <==> t in txs || (a.Begin? && t == a.c))
    && (forall t :: C.IsCommitted(txs', t) <==> C.IsCommitted(txs, t) || (a.Commit? && t == a.c))
  }

  ghost predicate BookMoves(s: State, a: Action, s': State) {
    && s'.book.endpoints == (if a.Arrive? then s.book.endpoints[a.c := a.endpoint] else s.book.endpoints)
    && s'.book.elsewhere == (if ElsewhereCommit(a) then s.book.elsewhere[a.c := a.response] else s.book.elsewhere)
    && (a.Arrive? ==> a.c !in s.protocol.core.calls)
    && (a.Begin? || a.Commit? ==> Serves(s, a.c, Remittances))
    && (ElsewhereCommit(a) ==> !Serves(s, a.c, Remittances) && !IsRemittanceOutput(a.response))
  }

  ghost predicate Moves(s: State, a: Action, s': State) {
    CallsMove(s, a, s') && TransactionsMove(s, a, s') && BookMoves(s, a, s')
  }

  /** What a step is for the decorator. */
  lemma ProtocolStepIs(s: State, a: Action)
    requires Enabled(s, a)
    ensures var x := ProtocolStep(a);
            && (x.Act? && x.action.Arrive? <==> a.Arrive?)
            && (a.Arrive? ==> x.action == P.Arrive(a.c, a.key))
            && (IsCommit(a) ==> x.Act? && x.action.c == a.c && (x.action.Commit? || x.action.CommitUnacknowledged?))
            && (IsCommit(a) || a.Begin? ==> Executing(s, a.c))
  {
  }

  lemma CallsMoveBy(s: State, a: Action, s': State)
    requires Enabled(s, a) && ProtocolStep(a).Act?
    requires var x := ProtocolStep(a);
             s'.protocol.core == P.After(s.protocol.core, x.action, R.ReplyAt(s.protocol, x))
    ensures CallsMove(s, a, s')
  {
    ProtocolStepIs(s, a);
    var x, reply := ProtocolStep(a).action, R.ReplyAt(s.protocol, ProtocolStep(a));
    P.CallsStay(s.protocol.core, x, reply);
  }

  lemma CallsAfter(s: State, a: Action)
    requires Enabled(s, a)
    ensures CallsMove(s, a, Do(s, a))
  {
    ProtocolStepIs(s, a);
    if ProtocolStep(a).Act? {
      CallsMoveBy(s, a, Do(s, a));
    }
  }

  lemma BookAfter(s: State, a: Action)
    requires Enabled(s, a)
    ensures BookMoves(s, a, Do(s, a))
  {
  }

  lemma StepMoves(s: State, a: Action)
    requires Enabled(s, a)
    ensures Moves(s, a, Do(s, a))
  {
    CallsAfter(s, a);
    BookAfter(s, a);
    if DatabaseStep(s, a).Some? {
      C.TransactionsAfter(s.world, DatabaseStep(s, a).value);
    }
  }

  /** What the use case behind a committing step returned. */
  function ResponseOf(a: Action): Response {
    match a
    case Commit(c, _) => ResponseFor(c)
    case CommitOpening(_, response, _, _, _, _) => response
    case CommitElsewhere(_, response, _) => response
    case _ => Nothing
  }

  lemma CommittedAfter(s: State, a: Action, s': State)
    requires WorkBelongsToCalls(s) && Moves(s, a, s')
    ensures forall c :: HasCommitted(s', c) <==> HasCommitted(s, c) || (IsCommit(a) && c == a.c)
    ensures forall c | HasCommitted(s, c) :: OutputOf(s', c) == OutputOf(s, c)
    ensures IsCommit(a) ==> !HasCommitted(s, a.c) && OutputOf(s', a.c) == ResponseOf(a)
  {
  }

  lemma WorkPreserved(s: State, a: Action, s': State)
    requires WorkBelongsToCalls(s) && Moves(s, a, s')
    ensures WorkBelongsToCalls(s')
  {
  }

  /** Nothing but a commit changes which calls committed. */
  lemma CommitsAfter(s: State, a: Action, s': State, k: Key)
    requires WorkBelongsToCalls(s) && Moves(s, a, s')
    ensures var commit := IsCommit(a) && KeyOf(s, a.c) == k;
            && Commits(s', k) == Commits(s, k) + (if commit then {a.c} else {})
            && (commit ==> a.c !in Commits(s, k))
  {
    CommittedAfter(s, a, s');
    var after := Commits(s, k) + if IsCommit(a) && KeyOf(s, a.c) == k then {a.c} else {};
    forall c ensures c in Commits(s', k) <==> c in after {
    }
  }

  lemma HistoryAfter(s: State, a: Action, k: Key)
    requires Enabled(s, a)
    ensures IsCommit(a) ==> a.c in s.protocol.core.calls
    ensures P.Committed(Do(s, a).protocol.core, k)
         == P.Committed(s.protocol.core, k) + if IsCommit(a) && KeyOf(s, a.c) == k then [ResponseOf(a)] else []
  {
    if ProtocolStep(a).Act? {
      P.CountersAfter(s.protocol.core, ProtocolStep(a).action, R.ReplyAt(s.protocol, ProtocolStep(a)), k);
    }
  }

  lemma HistoryMatches(s: State, a: Action, s': State, k: Key)
    requires WorkBelongsToCalls(s) && HistoryIsCommits(s, k) && Moves(s, a, s')
    requires P.Committed(s'.protocol.core, k)
          == P.Committed(s.protocol.core, k) + if IsCommit(a) && KeyOf(s, a.c) == k then [ResponseOf(a)] else []
    ensures HistoryIsCommits(s', k)
  {
    CommitsAfter(s, a, s', k);
    CommittedAfter(s, a, s');
    forall r | r in P.Committed(s'.protocol.core, k) ensures exists c :: c in Commits(s', k) && r == OutputOf(s', c) {
      if r in P.Committed(s.protocol.core, k) {
        var c :| c in Commits(s, k) && r == OutputOf(s, c);
        assert c in Commits(s', k) && r == OutputOf(s', c);
      } else {
        assert a.c in Commits(s', k) && r == OutputOf(s', a.c);
      }
    }
  }

  // ---- Where responses come from

  lemma FromStays(s: State, a: Action, s': State, c: P.CallId, response: Response, source: P.CallId)
    requires WorkBelongsToCalls(s) && Moves(s, a, s') && From(s, c, response, source)
    ensures From(s', c, response, source)
  {
    CommittedAfter(s, a, s');
  }

  /** Every call but the acting one is as it was. */
  lemma OthersStay(s: State, a: Action, c: P.CallId)
    requires Enabled(s, a) && c in Do(s, a).protocol.core.calls
    requires ProtocolStep(a).Act? ==> c != ProtocolStep(a).action.c
    ensures c in s.protocol.core.calls && Do(s, a).protocol.core.calls[c] == s.protocol.core.calls[c]
    ensures c in s.book.sources ==> c in Do(s, a).book.sources && Do(s, a).book.sources[c] == s.book.sources[c]
  {
    if ProtocolStep(a).Act? {
      P.OtherCallsUntouched(s.protocol.core, ProtocolStep(a).action, R.ReplyAt(s.protocol, ProtocolStep(a)), c);
    }
  }

  lemma SavingPreserved(s: State, a: Action)
    requires WorkBelongsToCalls(s) && SavingTheirOwn(s) && Enabled(s, a)
    ensures SavingTheirOwn(Do(s, a))
  {
    var s' := Do(s, a);
    StepMoves(s, a);
    forall c | c in s'.protocol.core.calls && s'.protocol.core.calls[c].phase.Saving?
      ensures From(s', c, s'.protocol.core.calls[c].phase.response, c)
    {
      if ProtocolStep(a).Act? && c == ProtocolStep(a).action.c {
        CommitSaves(s, a);
      } else {
        OthersStay(s, a, c);
        FromStays(s, a, s', c, s.protocol.core.calls[c].phase.response, c);
      }
    }
  }

  /** A call goes on to save only what it has just committed. */
  lemma CommitSaves(s: State, a: Action)
    requires WorkBelongsToCalls(s) && Enabled(s, a) && ProtocolStep(a).Act?
    requires var c := ProtocolStep(a).action.c;
             c in Do(s, a).protocol.core.calls && Do(s, a).protocol.core.calls[c].phase.Saving?
    ensures IsCommit(a) && ProtocolStep(a).action.c == a.c
    ensures From(Do(s, a), a.c, Do(s, a).protocol.core.calls[a.c].phase.response, a.c)
  {
    StepMoves(s, a);
    CommittedAfter(s, a, Do(s, a));
  }

  /** Only a save puts a response into the store, and it is the acting call's own. */
  lemma StoredAfter(s: State, a: Action, k: Key)
    requires Enabled(s, a)
    requires k in Do(s, a).protocol.redis && Do(s, a).protocol.redis[k].entry.Completed?
    ensures var s' := Do(s, a);
            if a.Decorator? && Saves(a.action) && KeyOf(s, a.action.c) == k then
              && s'.protocol.redis[k].entry.response == s.protocol.core.calls[a.action.c].phase.response
              && s'.book.savers == s.book.savers[k := a.action.c]
            else
              && k in s.protocol.redis && s'.protocol.redis[k] == s.protocol.redis[k]
              && (k in s.book.savers ==> k in s'.book.savers && s'.book.savers[k] == s.book.savers[k])
  {
  }

  lemma StoredPreserved(s: State, a: Action)
    requires WorkBelongsToCalls(s) && OutputsTraced(s) && Enabled(s, a)
    ensures StoredBySavers(Do(s, a))
  {
    var s' := Do(s, a);
    StepMoves(s, a);
    CommittedAfter(s, a, s');
    forall k | k in s'.protocol.redis && s'.protocol.redis[k].entry.Completed?
      ensures k in s'.book.savers && s'.book.savers[k] in Commits(s', k)
              && s'.protocol.redis[k].entry.response == OutputOf(s', s'.book.savers[k])
    {
      StoredAfter(s, a, k);
      if a.Decorator? && Saves(a.action) && KeyOf(s, a.action.c) == k {
        FromStays(s, a, s', a.action.c, s.protocol.core.calls[a.action.c].phase.response, a.action.c);
      }
    }
  }

  /** A call returns what it saved itself, or what the store holds from the last save. */
  lemma ReturnsAfter(s: State, a: Action)
    requires Enabled(s, a) && ProtocolStep(a).Act?
    requires var c := ProtocolStep(a).action.c;
             c in Do(s, a).protocol.core.calls && Do(s, a).protocol.core.calls[c].phase.Returned?
    ensures a.Decorator? && (a.action.SaveStep? || a.action.FindStep?)
    ensures var s' := Do(s, a); var c := a.action.c; var k, r := KeyOf(s, c), s'.protocol.core.calls[c].phase.response;
            if a.action.SaveStep? then
              s.protocol.core.calls[c].phase == P.Saving(r) && s'.book.sources == s.book.sources[c := c]
            else
              && k in s.protocol.redis && s.protocol.redis[k].entry == Completed(r)
              && (k in s.book.savers ==> s'.book.sources == s.book.sources[c := s.book.savers[k]])
  {
  }

  lemma ReturnedPreserved(s: State, a: Action)
    requires WorkBelongsToCalls(s) && OutputsTraced(s) && Enabled(s, a)
    ensures ReturnedFromSources(Do(s, a))
  {
    var s' := Do(s, a);
    StepMoves(s, a);
    forall c | c in s'.protocol.core.calls && s'.protocol.core.calls[c].phase.Returned?
      ensures c in s'.book.sources && From(s', c, s'.protocol.core.calls[c].phase.response, s'.book.sources[c])
    {
      if ProtocolStep(a).Act? && c == ProtocolStep(a).action.c {
        ReturnsAfter(s, a);
        FromStays(s, a, s', c, s'.protocol.core.calls[c].phase.response, s'.book.sources[c]);
      } else {
        OthersStay(s, a, c);
        FromStays(s, a, s', c, s.protocol.core.calls[c].phase.response, s.book.sources[c]);
      }
    }
  }

  lemma PartsMove(s: State, a: Action)
    requires Inv(s) && Enabled(s, a)
    ensures R.TimedReachable(Do(s, a).protocol) && C.Inv(Do(s, a).world)
  {
    R.TimedStep(s.protocol, ProtocolStep(a));
    if DatabaseStep(s, a).Some? {
      C.InvPreserved(s.world, DatabaseStep(s, a).value);
    }
  }

  lemma InvPreserved(s: State, a: Action)
    requires Inv(s) && Enabled(s, a)
    ensures Inv(Do(s, a))
  {
    PartsMove(s, a);
    StepMoves(s, a);
    WorkPreserved(s, a, Do(s, a));
    SavingPreserved(s, a);
    StoredPreserved(s, a);
    ReturnedPreserved(s, a);
    forall k ensures HistoryIsCommits(Do(s, a), k) {
      HistoryAfter(s, a, k);
      HistoryMatches(s, a, Do(s, a), k);
    }
  }

  lemma {:induction false} InvOfRun(states: seq<State>, actions: seq<Action>, i: nat)
    requires Run(states, actions) && i < |states|
    ensures Inv(states[i])
  {
    if i == 0 {
      R.TimedInitReachable();
    } else {
      InvOfRun(states, actions, i - 1);
      assert Next(states[i - 1], actions[i - 1], states[i]);
      InvPreserved(states[i - 1], actions[i - 1]);
    }
  }

  // ---- One key, one remittance

  /** A remittance was committed by a call for this key. */
  predicate SentFor(s: State, r: Remittance, k: Key) {
    r.id in s.protocol.core.calls && KeyOf(s, r.id) == k
  }

  /** The remittances of a key are the commits of its remittance calls. */
  lemma RemittancesAreCommits(s: State, k: Key)
    requires Inv(s)
    ensures forall r | r in s.world.db.remittances ::
              Serves(s, r.id, Remittances) && (r.id in Commits(s, k) <==> SentFor(s, r, k))
    ensures forall c | c in Commits(s, k) && Serves(s, c, Remittances) ::
              exists n :: 0 <= n < |s.world.db.remittances| && s.world.db.remittances[n].id == c
  {
    forall c | c in Commits(s, k) && Serves(s, c, Remittances)
      ensures exists n :: 0 <= n < |s.world.db.remittances| && s.world.db.remittances[n].id == c
    {
      assert C.IsCommitted(s.world.txs, c);
    }
  }

  /**
    In every interleaving of calls of all endpoints, transactions and time: a key's calls together commit at most
    once more than its slips, lapses and strays, and every remittance is the commit of a remittance call. So a key
    with neither slips nor lapses has at most one remittance, and none if a call of another endpoint committed.
  */
  lemma AtMostOneRemittancePerKey(states: seq<State>, actions: seq<Action>, i: nat, k: Key)
    requires Run(states, actions) && i < |states|
    ensures var s := states[i];
            && |Commits(s, k)| <= 1 + s.protocol.core.slips[k] + s.protocol.lapses[k] + s.protocol.strays[k]
            && (s.protocol.lapses[k] == 0 ==> s.protocol.strays[k] == 0)
            && (forall r | r in s.world.db.remittances :: Serves(s, r.id, Remittances))
            && (forall r | r in s.world.db.remittances :: r.id in Commits(s, k) <==> SentFor(s, r, k))
    ensures var s := states[i];
            s.protocol.core.slips[k] == 0 && s.protocol.lapses[k] == 0 ==>
              && (forall m, n :: 0 <= m < n < |s.world.db.remittances| ==>
                    !(SentFor(s, s.world.db.remittances[m], k) && SentFor(s, s.world.db.remittances[n], k)))
              && (forall c | c in Commits(s, k) && !Serves(s, c, Remittances) ::
                    forall r | r in s.world.db.remittances :: !SentFor(s, r, k))
  {
    var s := states[i];
    InvOfRun(states, actions, i);
    assert HistoryIsCommits(s, k);
    R.CommitsBoundedInEveryRun(s.protocol, k);
    RemittancesAreCommits(s, k);
    if s.protocol.core.slips[k] == 0 && s.protocol.lapses[k] == 0 {
      forall c, d | c in Commits(s, k) && d in Commits(s, k) ensures c == d {
        if c != d {
          DifferentMembersCount(Commits(s, k), c, d);
        }
      }
      forall m, n | 0 <= m < n < |s.world.db.remittances|
        ensures !(SentFor(s, s.world.db.remittances[m], k) && SentFor(s, s.world.db.remittances[n], k))
      {
        assert s.world.db.remittances[m].id != s.world.db.remittances[n].id;
      }
    }
  }

  // ---- What a call returns

  /** The output of a remittance of this key. */
  ghost predicate OutputOfARemittance(s: State, k: Key, response: Response) {
    exists n :: 0 <= n < |s.world.db.remittances| && SentFor(s, s.world.db.remittances[n], k)
                && response == ResponseFor(s.world.db.remittances[n].id)
  }

  /** A committed call's output is that of a remittance of its key exactly when it was a remittance call. */
  lemma OutputIsARemittancesIff(s: State, k: Key, source: P.CallId)
    requires Inv(s) && source in Commits(s, k)
    ensures OutputOfARemittance(s, k, OutputOf(s, source)) <==> Serves(s, source, Remittances)
  {
    RemittancesAreCommits(s, k);
    if Serves(s, source, Remittances) {
      var n :| 0 <= n < |s.world.db.remittances| && s.world.db.remittances[n].id == source;
      assert SentFor(s, s.world.db.remittances[n], k);
    }
  }

  /**
    Whatever a call returned was saved by a committed call of the same key, itself or another; it is the output
    of a remittance of that key exactly when that call was a remittance call. So it is if no call of another
    endpoint ever used the key.
  */
  lemma ReturnsARemittanceIff(states: seq<State>, actions: seq<Action>, i: nat, c: P.CallId)
    requires Run(states, actions) && i < |states|
    requires c in states[i].protocol.core.calls && states[i].protocol.core.calls[c].phase.Returned?
    ensures var s := states[i]; var k, response := KeyOf(s, c), s.protocol.core.calls[c].phase.response;
            && c in s.book.sources && From(s, c, response, s.book.sources[c])
            && (OutputOfARemittance(s, k, response) <==> Serves(s, s.book.sources[c], Remittances))
            && ((forall d | d in s.protocol.core.calls && KeyOf(s, d) == k :: Serves(s, d, Remittances)) ==>
                  OutputOfARemittance(s, k, response))
  {
    InvOfRun(states, actions, i);
    OutputIsARemittancesIff(states[i], KeyOf(states[i], c), states[i].book.sources[c]);
  }

  ghost predicate ReturnsARemittance(s: State, c: P.CallId) {
    && c in s.protocol.core.calls && s.protocol.core.calls[c].phase.Returned?
    && OutputOfARemittance(s, KeyOf(s, c), s.protocol.core.calls[c].phase.response)
  }

  /** The key has a response that has not expired, and a remittance call saved it. */
  predicate RemittanceIsStored(s: State, k: Key) {
    var live := Live(s.protocol.redis, s.protocol.now);
    k in live && live[k].Completed? && k in s.book.savers && Serves(s, s.book.savers[k], Remittances)
  }

  /** What is in the store now decides it: a lookup returns a remittance's output iff a remittance call saved it. */
  lemma LookupReturnsARemittanceIff(s: State, c: P.CallId)
    requires Inv(s) && Enabled(s, Decorator(P.FindStep(c)))
    ensures ReturnsARemittance(Do(s, Decorator(P.FindStep(c))), c) <==> RemittanceIsStored(s, KeyOf(s, c))
  {
    var k, live := KeyOf(s, c), Live(s.protocol.redis, s.protocol.now);
    LookupReturns(s, c);
    if k in live && live[k].Completed? {
      OutputIsARemittancesIff(s, k, s.book.savers[k]);
    }
  }

  lemma LookupReturns(s: State, c: P.CallId)
    requires Inv(s) && Enabled(s, Decorator(P.FindStep(c)))
    ensures var s', k, live := Do(s, Decorator(P.FindStep(c))), KeyOf(s, c), Live(s.protocol.redis, s.protocol.now);
            && c in s'.protocol.core.calls && KeyOf(s', c) == k && s'.world == s.world
            && (forall r | r in s.world.db.remittances :: SentFor(s', r, k) <==> SentFor(s, r, k))
            && (k in live && live[k].Completed? ==>
                  k in s.book.savers && s.book.savers[k] in Commits(s, k)
                  && live[k].response == OutputOf(s, s.book.savers[k]))
            && s'.protocol.core.calls[c].phase == if k in live && live[k].Completed? && live[k].response.Truthy?
                                                  then P.Returned(live[k].response) else P.InFlightError
  {
    CallsAfter(s, Decorator(P.FindStep(c)));
    RemittancesAreCommits(s, KeyOf(s, c));
    CommandsAreContractSteps(s.protocol.redis, s.protocol.now, Find(KeyOf(s, c)));
  }

  lemma DifferentMembersCount(s: set<P.CallId>, c: P.CallId, d: P.CallId)
    requires c in s && d in s && c != d
    ensures |s| >= 2
  {
    assert s == {c, d} + (s - {c, d});
  }

  // ---- Reachable states

  ghost predicate Reachable(s: State) {
    exists states, actions :: Run(states, actions) && states[|actions|] == s
  }

  lemma TakeStep(s: State, a: Action) returns (s': State)
    requires Reachable(s) && Enabled(s, a)
    ensures Reachable(s') && s' == Do(s, a)
  {
    s' := Do(s, a);
    var states, actions :| Run(states, actions) && states[|actions|] == s;
    var states', actions' := states + [s'], actions + [a];
    forall i | 0 <= i < |actions'| ensures Next(states'[i], actions'[i], states'[i + 1]) {
      assert i < |actions| ==> Next(states[i], actions[i], states[i + 1]);
    }
    assert Run(states', actions') && states'[|actions'|] == s';
  }

  lemma InitReachable()
    ensures Reachable(INIT)
  {
    var none: seq<Action> := [];
    assert Run([INIT], none) && [INIT][|none|] == INIT;
  }
}
