/**
  IdempotentDecorator.execute as a protocol: any number of calls, on any keys, interleaved at every await.

  A call claims its key, and either looks up the stored response or runs the use case, saves the response and
  returns it; an error on the way releases the key. Any call may stop for good at any point (a crash). Three
  failures are kept apart because they differ in what they leave behind: a commit of the use case that is
  reported as an error, a save that is lost, and a save that takes effect but is reported as an error.
*/
module IdempotencyProtocol {
  import opened IdempotencyStore

  type CallId = nat

  datatype Phase =
    | Claiming
    | LookingUp
    | Executing
    | Saving(response: Response)
    | Releasing(saved: bool)   // whether this call's own save took effect is history
    | Returned(response: Response)
    | InFlightError
    | Threw
    | Crashed(held: bool, committed: bool)

  datatype Call = Call(key: Key, phase: Phase)

  /** The calls, and two history variables: responses the use case committed, and commits that slipped. */
  datatype Core = Core(calls: map<CallId, Call>, history: map<Key, seq<Response>>, slips: multiset<Key>)

  datatype Action =
    | Arrive(c: CallId, key: Key)
    | ClaimStep(c: CallId)
    | FindStep(c: CallId)
    | Commit(c: CallId, response: Response)
    | Fail(c: CallId)
    | CommitUnacknowledged(c: CallId, response: Response)
    | SaveStep(c: CallId)
    | SaveLost(c: CallId)
    | SaveUnacknowledged(c: CallId)
    | ReleaseStep(c: CallId)
    | Crash(c: CallId)

  datatype State = State(store: Store, core: Core)

  const INIT := State(map[], Core(map[], map[], multiset{}))

  function Committed(core: Core, k: Key): seq<Response> {
    if k in core.history then core.history[k] else []
  }

  predicate Enabled(core: Core, a: Action) {
    match a
    case Arrive(c, _) => c !in core.calls
    case ClaimStep(c) => c in core.calls && core.calls[c].phase.Claiming?
    case FindStep(c) => c in core.calls && core.calls[c].phase.LookingUp?
    case Commit(c, _) => c in core.calls && core.calls[c].phase.Executing?
    case Fail(c) => c in core.calls && core.calls[c].phase.Executing?
    case CommitUnacknowledged(c, _) => c in core.calls && core.calls[c].phase.Executing?
    case SaveStep(c) => c in core.calls && core.calls[c].phase.Saving?
    case SaveLost(c) => c in core.calls && core.calls[c].phase.Saving?
    case SaveUnacknowledged(c) => c in core.calls && core.calls[c].phase.Saving?
    case ReleaseStep(c) => c in core.calls && core.calls[c].phase.Releasing?
    case Crash(c) => c in core.calls && Running(core.calls[c].phase)
  }

  predicate Running(p: Phase) {
    p.Claiming? || p.LookingUp? || p.Executing? || p.Saving? || p.Releasing?
  }

  /** The store operation an action performs, if any. */
  function OpOf(core: Core, a: Action): Op
    requires Enabled(core, a)
  {
    match a
    case ClaimStep(c) => Claim(core.calls[c].key)
    case FindStep(c) => Find(core.calls[c].key)
    case SaveStep(c) => Save(core.calls[c].key, core.calls[c].phase.response)
    case SaveUnacknowledged(c) => Save(core.calls[c].key, core.calls[c].phase.response)
    case ReleaseStep(c) => Release(core.calls[c].key)
    case _ => Skip
  }

  function Goto(core: Core, c: CallId, p: Phase): Core
    requires c in core.calls
  {
    core.(calls := core.calls[c := core.calls[c].(phase := p)])
  }

  function Record(core: Core, k: Key, response: Response): Core {
    core.(history := core.history[k := Committed(core, k) + [response]])
  }

  function Slip(core: Core, k: Key): Core {
    core.(slips := core.slips + multiset{k})
  }

  /** What a call does next, given the store's reply. */
  function After(core: Core, a: Action, reply: Reply): Core
    requires Enabled(core, a)
  {
    match a
    case Arrive(c, k) => core.(calls := core.calls[c := Call(k, Claiming)])
    case ClaimStep(c) => Goto(core, c, if reply.claimed then Executing else LookingUp)
    case FindStep(c) => Goto(core, c, if reply.found.Truthy? then Returned(reply.found) else InFlightError)
    case Commit(c, response) => Goto(Record(core, core.calls[c].key, response), c, Saving(response))
    case Fail(c) => Goto(core, c, Releasing(false))
    case CommitUnacknowledged(c, response) =>
      Goto(Slip(Record(core, core.calls[c].key, response), core.calls[c].key), c, Releasing(false))
    case SaveStep(c) => Goto(core, c, Returned(core.calls[c].phase.response))
    case SaveLost(c) => Goto(Slip(core, core.calls[c].key), c, Releasing(false))
    case SaveUnacknowledged(c) => Goto(core, c, Releasing(true))
    case ReleaseStep(c) => Goto(core, c, Threw)
    case Crash(c) =>
      var p := core.calls[c].phase;
      Goto(core, c, Crashed(p.Executing? || p.Saving? || p.Releasing?, p.Saving?))
  }

  function Do(s: State, a: Action): State
    requires Enabled(s.core, a)
  {
    var (store, reply) := Apply(s.store, OpOf(s.core, a));
    State(store, After(s.core, a, reply))
  }

  function ReplyTo(s: State, a: Action): Reply
    requires Enabled(s.core, a)
  {
    Apply(s.store, OpOf(s.core, a)).1
  }

  ghost predicate Next(s: State, a: Action, s': State) {
    Enabled(s.core, a) && s' == Do(s, a)
  }

  ghost predicate Run(states: seq<State>, actions: seq<Action>) {
    && |states| == |actions| + 1
    && states[0] == INIT
    && forall i :: 0 <= i < |actions| ==> Next(states[i], actions[i], states[i + 1])
  }

  // ---- The invariant

  /** Between a successful claim and its save or release. */
  predicate Holds(p: Phase) {
    p.Executing? || p.Saving? || p.Releasing? || (p.Crashed? && p.held)
  }

  /** Holds a committed response that is not in the store yet. */
  predicate Carries(p: Phase) {
    p.Saving? || (p.Crashed? && p.held && p.committed)
  }

  ghost predicate Carried(s: State, k: Key) {
    exists c :: c in s.core.calls && s.core.calls[c].key == k && Carries(s.core.calls[c].phase)
  }

  /** A commit of this key is on record: stored, or on its way into the store. */
  ghost predicate Settled(s: State, k: Key) {
    (k in s.store && s.store[k].Completed?) || Carried(s, k)
  }

  ghost predicate HoldsKey(s: State, c: CallId) {
    c in s.core.calls && Holds(s.core.calls[c].phase)
  }

  /** At most one call per key holds it. */
  ghost predicate MutualExclusion(s: State) {
    forall c, d | HoldsKey(s, c) && HoldsKey(s, d) :: s.core.calls[c].key == s.core.calls[d].key ==> c == d
  }

  ghost predicate HoldersAreInStore(s: State) {
    forall c | HoldsKey(s, c) ::
      var k := s.core.calls[c].key;
      k in s.store && (s.core.calls[c].phase.Executing? || Carries(s.core.calls[c].phase) ==> s.store[k].InFlight?)
  }

  /** Commits are exactly the slips plus the one on record. */
  ghost predicate CommitsCounted(s: State) {
    forall k :: |Committed(s.core, k)| == s.core.slips[k] + (if Settled(s, k) then 1 else 0)
  }

  /** No value is invented: stored, carried and returned responses were committed for that key. */
  ghost predicate ValuesCommitted(s: State) {
    && (forall k :: k in s.store && s.store[k].Completed? ==> s.store[k].response in Committed(s.core, k))
    && (forall c :: c in s.core.calls ==>
          var call := s.core.calls[c];
          call.phase.Saving? || call.phase.Returned? ==> call.phase.response in Committed(s.core, call.key))
  }

  ghost predicate Inv(s: State) {
    MutualExclusion(s) && HoldersAreInStore(s) && CommitsCounted(s) && ValuesCommitted(s)
  }

  /** Where the decorator goes from a phase. */
  predicate Follows(p: Phase, q: Phase) {
    match p
    case Claiming => q.Executing? || q.LookingUp?
    case LookingUp => q.Returned? || q.InFlightError?
    case Executing => q.Saving? || q.Releasing?
    case Saving(_) => q.Returned? || q.Releasing?
    case Releasing(_) => q.Threw?
    case _ => false
  }

  lemma PhaseAfter(core: Core, a: Action, reply: Reply)
    requires Enabled(core, a) && !a.Arrive? && !a.Crash?
    ensures var core' := After(core, a, reply);
            && a.c in core'.calls && Follows(core.calls[a.c].phase, core'.calls[a.c].phase)
            && (core.calls[a.c].phase.Executing? <==> a.Commit? || a.CommitUnacknowledged? || a.Fail?)
  {
  }

  /** Whatever the store replies, an action moves only its own call. */
  lemma OtherCallsUntouched(core: Core, a: Action, reply: Reply, d: CallId)
    requires Enabled(core, a) && d != a.c
    ensures d in After(core, a, reply).calls <==> d in core.calls
    ensures d in core.calls ==> After(core, a, reply).calls[d] == core.calls[d]
  {
  }

  /** Calls keep their keys, and one that has left the claim or the use case behind does not come back to it. */
  lemma CallsStay(core: Core, a: Action, reply: Reply)
    requires Enabled(core, a)
    ensures var calls, calls' := core.calls, After(core, a, reply).calls;
            && (forall d :: d in calls' <==> d in calls || (a.Arrive? && d == a.c))
            && (forall d | d in calls :: calls'[d].key == calls[d].key)
            && (forall d | d in calls && !calls[d].phase.Claiming? :: !calls'[d].phase.Claiming?)
            && (forall d | d in calls && !calls[d].phase.Claiming? && !calls[d].phase.Executing? ::
                  !calls'[d].phase.Executing?)
  {
  }

  /** Only a claim on a free key makes a call a holder. */
  lemma HoldersAfter(s: State, a: Action, c: CallId)
    requires Enabled(s.core, a) && HoldsKey(Do(s, a), c)
    ensures c in s.core.calls && Do(s, a).core.calls[c].key == s.core.calls[c].key
    ensures HoldsKey(s, c) || (a == ClaimStep(c) && s.core.calls[c].key !in s.store)
  {
    if c != a.c {
      OtherCallsUntouched(s.core, a, ReplyTo(s, a), c);
    }
  }

  lemma ExclusionPreserved(s: State, a: Action)
    requires MutualExclusion(s) && HoldersAreInStore(s) && Enabled(s.core, a)
    ensures MutualExclusion(Do(s, a))
  {
    var s' := Do(s, a);
    forall c, d | HoldsKey(s', c) && HoldsKey(s', d) && s'.core.calls[c].key == s'.core.calls[d].key ensures c == d {
      HoldersAfter(s, a, c);
      HoldersAfter(s, a, d);
    }
  }

  lemma InStorePreserved(s: State, a: Action)
    requires MutualExclusion(s) && HoldersAreInStore(s) && Enabled(s.core, a)
    ensures HoldersAreInStore(Do(s, a))
  {
    var s' := Do(s, a);
    forall c | HoldsKey(s', c)
      ensures var k := s'.core.calls[c].key;
              k in s'.store
                && (s'.core.calls[c].phase.Executing? || Carries(s'.core.calls[c].phase) ==> s'.store[k].InFlight?)
    {
      HoldersAfter(s, a, c);
      if c != a.c {
        OtherCallsUntouched(s.core, a, ReplyTo(s, a), c);
        assert !a.Arrive? && s.core.calls[a.c].key == s.core.calls[c].key ==> !HoldsKey(s, a.c);
      }
    }
  }

  /** Whether a commit is being carried is settled by the acting call, if it holds the key, and else unchanged. */
  lemma CarriedAfter(s: State, a: Action, k: Key)
    requires MutualExclusion(s) && Enabled(s.core, a)
    ensures var s' := Do(s, a);
            if !a.Arrive? && s.core.calls[a.c].key == k && Holds(s.core.calls[a.c].phase)
            then (Carried(s, k) <==> Carries(s.core.calls[a.c].phase))
              && (Carried(s', k) <==> Carries(s'.core.calls[a.c].phase))
            else Carried(s', k) <==> Carried(s, k)
  {
    var s' := Do(s, a);
    if Carried(s, k) {
      var d :| d in s.core.calls && s.core.calls[d].key == k && Carries(s.core.calls[d].phase);
      assert HoldsKey(s, d);
      if d != a.c {
        OtherCallsUntouched(s.core, a, ReplyTo(s, a), d);
        assert !a.Arrive? && s.core.calls[a.c].key == k ==> !HoldsKey(s, a.c);
      }
    }
    if Carried(s', k) {
      var d :| d in s'.core.calls && s'.core.calls[d].key == k && Carries(s'.core.calls[d].phase);
      if d != a.c {
        OtherCallsUntouched(s.core, a, ReplyTo(s, a), d);
        assert HoldsKey(s, d);
        assert !a.Arrive? && s.core.calls[a.c].key == k ==> !HoldsKey(s, a.c);
      }
    }
    if !a.Arrive? && s.core.calls[a.c].key == k && Carries(s'.core.calls[a.c].phase) {
      assert a.c in s'.core.calls && s'.core.calls[a.c].key == k;
    }
  }

  lemma CountersAfter(core: Core, a: Action, reply: Reply, k: Key)
    requires Enabled(core, a)
    ensures var commits := (a.Commit? || a.CommitUnacknowledged?) && core.calls[a.c].key == k;
            Committed(After(core, a, reply), k) == Committed(core, k) + if commits then [a.response] else []
    ensures var slips := (a.CommitUnacknowledged? || a.SaveLost?) && core.calls[a.c].key == k;
            After(core, a, reply).slips[k] == core.slips[k] + if slips then 1 else 0
  {
  }

  lemma CountPreserved(s: State, a: Action, k: Key)
    requires MutualExclusion(s) && HoldersAreInStore(s) && CommitsCounted(s) && Enabled(s.core, a)
    ensures var s' := Do(s, a);
            |Committed(s'.core, k)| == s'.core.slips[k] + (if Settled(s', k) then 1 else 0)
  {
    CarriedAfter(s, a, k);
    CountersAfter(s.core, a, ReplyTo(s, a), k);
    assert |Committed(s.core, k)| == s.core.slips[k] + (if Settled(s, k) then 1 else 0);
    if !a.Arrive? && s.core.calls[a.c].key == k && Holds(s.core.calls[a.c].phase) {
      assert HoldsKey(s, a.c);
    }
  }

  lemma ValuesPreserved(s: State, a: Action)
    requires ValuesCommitted(s) && Enabled(s.core, a)
    ensures ValuesCommitted(Do(s, a))
  {
    var s' := Do(s, a);
    forall k | k in s'.store && s'.store[k].Completed? ensures s'.store[k].response in Committed(s'.core, k) {
      CountersAfter(s.core, a, ReplyTo(s, a), k);
    }
    forall c | c in s'.core.calls && (s'.core.calls[c].phase.Saving? || s'.core.calls[c].phase.Returned?)
      ensures s'.core.calls[c].phase.response in Committed(s'.core, s'.core.calls[c].key)
    {
      CountersAfter(s.core, a, ReplyTo(s, a), s'.core.calls[c].key);
      if c != a.c {
        OtherCallsUntouched(s.core, a, ReplyTo(s, a), c);
      }
    }
  }

  lemma InvPreserved(s: State, a: Action)
    requires Inv(s) && Enabled(s.core, a)
    ensures Inv(Do(s, a))
  {
    ExclusionPreserved(s, a);
    InStorePreserved(s, a);
    ValuesPreserved(s, a);
    forall k ensures |Committed(Do(s, a).core, k)| == Do(s, a).core.slips[k] + (if Settled(Do(s, a), k) then 1 else 0) {
      CountPreserved(s, a, k);
    }
  }

  lemma {:induction false} InvOfRun(states: seq<State>, actions: seq<Action>, i: nat)
    requires Run(states, actions) && i < |states|
    ensures Inv(states[i])
  {
    if i == 0 {
    } else {
      InvOfRun(states, actions, i - 1);
      assert Next(states[i - 1], actions[i - 1], states[i]);
      InvPreserved(states[i - 1], actions[i - 1]);
    }
  }

  /** Some run ends in this state. */
  ghost predicate Reachable(s: State) {
    exists states, actions :: Run(states, actions) && states[|actions|] == s
  }

  // ---- What every run guarantees

  /**
    In every state of every run, for every key: at most one call is between its claim and its save or release;
    the use case committed at most once more than commits slipped; and with no slips every value any call
    returned for the key is the response of the one commit.
  */
  lemma AtMostOneCommitPerKey(s: State, k: Key)
    requires Reachable(s)
    ensures MutualExclusion(s)
    ensures |Committed(s.core, k)| <= s.core.slips[k] + 1
    ensures s.core.slips[k] == 0 ==>
              forall c | c in s.core.calls && s.core.calls[c].key == k && s.core.calls[c].phase.Returned? ::
                Committed(s.core, k) == [s.core.calls[c].phase.response]
  {
    var states, actions :| Run(states, actions) && states[|actions|] == s;
    InvOfRun(states, actions, |actions|);
  }

  lemma InitReachable()
    ensures Reachable(INIT)
  {
    var none: seq<Action> := [];
    assert Run([INIT], none) && [INIT][|none|] == INIT;
  }

  lemma Step(s: State, a: Action)
    requires Reachable(s) && Enabled(s.core, a)
    ensures Reachable(Do(s, a))
  {
    var states, actions :| Run(states, actions) && states[|actions|] == s;
    var states', actions' := states + [Do(s, a)], actions + [a];
    forall i | 0 <= i < |actions'| ensures Next(states'[i], actions'[i], states'[i + 1]) {
      assert i < |actions| ==> Next(states[i], actions[i], states[i + 1]);
    }
    assert Run(states', actions') && states'[|actions'|] == Do(s, a);
  }

  lemma ClaimFresh(s: State, c: CallId, k: Key) returns (s': State)
    requires Reachable(s) && c !in s.core.calls && k !in s.store
    ensures Reachable(s')
    ensures s' == State(s.store[k := InFlight], s.core.(calls := s.core.calls[c := Call(k, Executing)]))
  {
    Step(s, Arrive(c, k));
    s' := Do(s, Arrive(c, k));
    Step(s', ClaimStep(c));
    s' := Do(s', ClaimStep(c));
    assert s'.core.calls == s.core.calls[c := Call(k, Executing)];
  }

  /** A call that claims a fresh key and commits, from any reachable state. */
  lemma CommitFresh(s: State, c: CallId, k: Key, response: Response) returns (s': State)
    requires Reachable(s) && c !in s.core.calls && k !in s.store
    ensures Reachable(s')
    ensures s'.store == s.store[k := InFlight] && s'.core.calls == s.core.calls[c := Call(k, Saving(response))]
    ensures s'.core.slips == s.core.slips && Committed(s'.core, k) == Committed(s.core, k) + [response]
  {
    var s1 := ClaimFresh(s, c, k);
    Step(s1, Commit(c, response));
    s' := Do(s1, Commit(c, response));
  }

  /** The bound is tight: one lost save, and a retry commits the same key again. */
  lemma LostSaveCommitsTwice(k: Key, first: Response, second: Response) returns (s: State)
    ensures Reachable(s) && Committed(s.core, k) == [first, second] && s.core.slips[k] == 1
  {
    InitReachable();
    var s1 := CommitFresh(INIT, 0, k, first);
    Step(s1, SaveLost(0));
    var s2 := Do(s1, SaveLost(0));
    Step(s2, ReleaseStep(0));
    s := CommitFresh(Do(s2, ReleaseStep(0)), 1, k, second);
  }

  lemma CompletedStepStable(s: State, a: Action, s': State, k: Key)
    requires MutualExclusion(s) && HoldersAreInStore(s) && Next(s, a, s') && k in s.store && s.store[k].Completed?
    ensures k in s'.store && s'.store[k] == s.store[k]
  {
    assert a.SaveStep? || a.SaveUnacknowledged? ==> HoldsKey(s, a.c);
  }

  /** Once a response is stored it is the answer for good: no later step overwrites or removes it. */
  lemma {:induction false} StoredResponseIsFinal(states: seq<State>, actions: seq<Action>, i: nat, j: nat, k: Key)
    requires Run(states, actions) && i <= j < |states|
    requires k in states[i].store && states[i].store[k].Completed?
    ensures k in states[j].store && states[j].store[k] == states[i].store[k]
    decreases j
  {
    if i == j {
    } else {
      StoredResponseIsFinal(states, actions, i, j - 1, k);
      StoredResponseStays(states, actions, j - 1, k);
    }
  }

  lemma StoredResponseStays(states: seq<State>, actions: seq<Action>, i: nat, k: Key)
    requires Run(states, actions) && i < |actions|
    requires k in states[i].store && states[i].store[k].Completed?
    ensures k in states[i + 1].store && states[i + 1].store[k] == states[i].store[k]
  {
    InvOfRun(states, actions, i);
    assert Next(states[i], actions[i], states[i + 1]);
    CompletedStepStable(states[i], actions[i], states[i + 1], k);
  }

  /** So a later lookup replays it when it is truthy, and otherwise reports the key as still in flight. */
  lemma StoredResponseIsReplayed(states: seq<State>, actions: seq<Action>, i: nat, j: nat, c: CallId, k: Key)
    requires Run(states, actions) && i <= j < |actions| && actions[j] == FindStep(c)
    requires c in states[j].core.calls && states[j].core.calls[c].key == k
    requires k in states[i].store && states[i].store[k].Completed?
    ensures var response := states[i].store[k].response;
            c in states[j + 1].core.calls
            && states[j + 1].core.calls[c].phase == if response.Truthy? then Returned(response) else InFlightError
  {
    StoredResponseIsFinal(states, actions, i, j, k);
    assert Next(states[j], actions[j], states[j + 1]);
  }

  /** A call stopped while it held the key, before its response was stored. */
  predicate Abandoned(s: State, k: Key, c: CallId) {
    c in s.core.calls && s.core.calls[c].key == k && s.core.calls[c].phase.Crashed? && s.core.calls[c].phase.held
    && k in s.store && s.store[k].InFlight?
  }

  lemma AbandonedStepStable(s: State, a: Action, s': State, k: Key, c: CallId)
    requires MutualExclusion(s) && HoldersAreInStore(s) && Next(s, a, s') && Abandoned(s, k, c)
    ensures Abandoned(s', k, c)
    ensures Committed(s'.core, k) == Committed(s.core, k)
  {
    if !a.Arrive? && s.core.calls[a.c].key == k {
      assert a.c != c;
      assert HoldsKey(s, c) && !HoldsKey(s, a.c);
    }
  }

  /** Fail closed: after a crash that leaves its claim behind, the key stays claimed and never commits again. */
  lemma {:induction false} AbandonedClaimFailsClosed(states: seq<State>, actions: seq<Action>, i: nat, j: nat, k: Key,
                                                     c: CallId)
    requires Run(states, actions) && i <= j < |states| && Abandoned(states[i], k, c)
    ensures Abandoned(states[j], k, c)
    ensures Committed(states[j].core, k) == Committed(states[i].core, k)
    decreases j
  {
    if i == j {
    } else {
      AbandonedClaimFailsClosed(states, actions, i, j - 1, k, c);
      InvOfRun(states, actions, j - 1);
      assert Next(states[j - 1], actions[j - 1], states[j]);
      AbandonedStepStable(states[j - 1], actions[j - 1], states[j], k, c);
    }
  }

  // ---- One call by itself

  datatype UseCase = Succeeds(response: Response) | Fails

  datatype SaveResult = Saved | Lost | Unacknowledged

  /** The store after a call that nothing interrupts, and how the call ends. */
  function Alone(store: Store, k: Key, useCase: UseCase, save: SaveResult): (Store, Phase) {
    if k in store then
      (store, if store[k].Completed? && store[k].response.Truthy? then Returned(store[k].response) else InFlightError)
    else if useCase.Fails? || save.Lost? then (store, Threw)
    else (store[k := Completed(useCase.response)], if save.Saved? then Returned(useCase.response) else Threw)
  }

  /** An uninterrupted call is one of the protocol's runs, from any reachable state. */
  lemma AloneIsARun(s: State, c: CallId, k: Key, useCase: UseCase, save: SaveResult) returns (s': State)
    requires Reachable(s) && c !in s.core.calls
    ensures Reachable(s')
    ensures s'.store == Alone(s.store, k, useCase, save).0
    ensures s'.core.calls == s.core.calls[c := Call(k, Alone(s.store, k, useCase, save).1)]
  {
    if k in s.store {
      s' := TurnedAway(s, c, k);
    } else if useCase.Fails? {
      s' := ClaimFresh(s, c, k);
      Step(s', Fail(c));
      s' := ReleaseFresh(s, Do(s', Fail(c)), c, k);
    } else {
      s' := CommitFresh(s, c, k, useCase.response);
      s' := EndSave(s, s', c, k, useCase.response, save);
    }
  }

  lemma TurnedAway(s: State, c: CallId, k: Key) returns (s': State)
    requires Reachable(s) && c !in s.core.calls && k in s.store
    ensures Reachable(s') && s'.store == s.store
    ensures s'.core.calls == s.core.calls[c := Call(k, if s.store[k].Completed? && s.store[k].response.Truthy?
                                                       then Returned(s.store[k].response) else InFlightError)]
  {
    Step(s, Arrive(c, k));
    s' := Do(s, Arrive(c, k));
    Step(s', ClaimStep(c));
    s' := Do(s', ClaimStep(c));
    Step(s', FindStep(c));
    s' := Do(s', FindStep(c));
  }

  lemma EndSave(s: State, t: State, c: CallId, k: Key, response: Response, save: SaveResult) returns (s': State)
    requires Reachable(t) && k !in s.store && t.store == s.store[k := InFlight]
    requires t.core.calls == s.core.calls[c := Call(k, Saving(response))]
    ensures Reachable(s')
    ensures s'.store == if save.Lost? then s.store else s.store[k := Completed(response)]
    ensures s'.core.calls == s.core.calls[c := Call(k, if save.Saved? then Returned(response) else Threw)]
  {
    match save
    case Saved =>
      Step(t, SaveStep(c));
      s' := Do(t, SaveStep(c));
    case Lost =>
      Step(t, SaveLost(c));
      s' := ReleaseFresh(s, Do(t, SaveLost(c)), c, k);
    case Unacknowledged =>
      Step(t, SaveUnacknowledged(c));
      s' := Do(t, SaveUnacknowledged(c));
      Step(s', ReleaseStep(c));
      s' := Do(s', ReleaseStep(c));
  }

  lemma ReleaseFresh(s: State, t: State, c: CallId, k: Key) returns (s': State)
    requires Reachable(t) && k !in s.store && t.store == s.store[k := InFlight]
    requires t.core.calls == s.core.calls[c := Call(k, Releasing(false))]
    ensures Reachable(s') && s'.store == s.store && s'.core.calls == s.core.calls[c := Call(k, Threw)]
  {
    Step(t, ReleaseStep(c));
    s' := Do(t, ReleaseStep(c));
  }

  class IdempotentDecorator {
    const repository: InMemoryIdempotencyRepository

    constructor (repository: InMemoryIdempotencyRepository)
      ensures this.repository == repository
    {
      this.repository := repository;
    }

    /** The wrapped use case and the save are given by how they turn out this time. */
    method Execute(key: Key, useCase: UseCase, save: SaveResult) returns (outcome: Phase)
      modifies repository
      ensures repository.View() == Alone(old(repository.View()), key, useCase, save).0
      ensures outcome == Alone(old(repository.View()), key, useCase, save).1
    {
      var claimed := repository.Claim(key);
      if !claimed {
        var existing := repository.FindByKey(key);
        if existing.Truthy? {
          return Returned(existing);
        }
        return InFlightError;
      }
      if useCase.Succeeds? {
        if !save.Lost? {
          repository.Save(key, useCase.response);
        }
        if save.Saved? {
          return Returned(useCase.response);
        }
      }
      repository.Release(key);
      assert useCase.Fails? || save.Lost? ==> repository.View() == old(repository.View());
      return Threw;
    }
  }
}
