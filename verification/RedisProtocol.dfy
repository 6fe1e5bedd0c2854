/**
  The protocol over Redis, the store the service is wired to, where claims expire after thirty seconds and
  responses after a day. Time passes between any two steps; nothing says that calls come in time.
*/
module RedisProtocol {
  import opened IdempotencyStore
  import opened RedisIdempotency
  import opened IdempotencyProtocol

  datatype TimedState = TimedState(
    redis: Redis,
    now: nat,
    core: Core,
    owners: map<Key, CallId>,   // history: the last call to claim each key
    lapses: multiset<Key>,      // history: claims, lookups and releases that found the key's value expired
    strays: multiset<Key>)      // history: releases that removed another call's marker, their own response being stored

  datatype TimedAction = Tick(elapsed: nat) | Act(action: Action)

  const TIMED_INIT := TimedState(map[], 0, INIT.core, map[], multiset{}, multiset{})

  predicate TimedEnabled(s: TimedState, a: TimedAction) {
    a.Act? ==> Enabled(s.core, a.action)
  }

  function OpAt(s: TimedState, a: TimedAction): Op
    requires TimedEnabled(s, a)
  {
    if a.Tick? then Skip else OpOf(s.core, a.action)
  }

  function ReplyAt(s: TimedState, a: TimedAction): Reply
    requires TimedEnabled(s, a)
  {
    RedisApply(s.redis, s.now, OpAt(s, a)).1
  }

  /** The step cannot be told from one over a store that never expires anything. */
  predicate Unseen(s: TimedState, a: TimedAction)
    requires TimedEnabled(s, a)
  {
    ExpiryUnseen(s.redis, s.now, OpAt(s, a))
  }

  predicate HasMarker(s: TimedState, k: Key) { k in s.redis && s.redis[k].entry.InFlight? }

  /** A call whose response is stored releases nothing of its own. */
  predicate Strays(s: TimedState, a: Action) {
    a.ReleaseStep? && a.c in s.core.calls && s.core.calls[a.c].phase.Releasing?
    && s.core.calls[a.c].phase.saved && HasMarker(s, s.core.calls[a.c].key)
  }

  function TimedDo(s: TimedState, a: TimedAction): TimedState
    requires TimedEnabled(s, a)
  {
    match a
    case Tick(elapsed) => s.(now := s.now + elapsed)
    case Act(x) =>
      var op, reply := OpAt(s, a), ReplyAt(s, a);
      TimedState(RedisApply(s.redis, s.now, op).0, s.now, After(s.core, x, reply),
                 if x.ClaimStep? && reply.claimed then s.owners[op.key := x.c] else s.owners,
                 if Unseen(s, a) then s.lapses else s.lapses + multiset{op.key},
                 if Strays(s, x) then s.strays + multiset{op.key} else s.strays)
  }

  ghost predicate TimedNext(s: TimedState, a: TimedAction, s': TimedState) {
    TimedEnabled(s, a) && s' == TimedDo(s, a)
  }

  ghost predicate TimedRun(states: seq<TimedState>, actions: seq<TimedAction>) {
    && |states| == |actions| + 1
    && states[0] == TIMED_INIT
    && forall i :: 0 <= i < |actions| ==> TimedNext(states[i], actions[i], states[i + 1])
  }

  ghost predicate TimedReachable(s: TimedState) {
    exists states, actions :: TimedRun(states, actions) && states[|actions|] == s
  }

  lemma TimedStep(s: TimedState, a: TimedAction)
    requires TimedReachable(s) && TimedEnabled(s, a)
    ensures TimedReachable(TimedDo(s, a))
  {
    var states, actions :| TimedRun(states, actions) && states[|actions|] == s;
    var states', actions' := states + [TimedDo(s, a)], actions + [a];
    forall i | 0 <= i < |actions'| ensures TimedNext(states'[i], actions'[i], states'[i + 1]) {
      assert i < |actions| ==> TimedNext(states[i], actions[i], states[i + 1]);
    }
    assert TimedRun(states', actions') && states'[|actions'|] == TimedDo(s, a);
  }

  lemma TimedInitReachable()
    ensures TimedReachable(TIMED_INIT)
  {
    var none: seq<TimedAction> := [];
    assert TimedRun([TIMED_INIT], none) && [TIMED_INIT][|none|] == TIMED_INIT;
  }

  // ---- Refinement, while no expiry is seen

  /** The same state as the protocol over a store that never forgets would have it. */
  function Untimed(s: TimedState): State { State(Written(s.redis), s.core) }

  /** A step is the same step over the reference store exactly when it sees no expiry; time passing is no step. */
  lemma TimedStepRefinesIff(s: TimedState, a: TimedAction)
    requires TimedEnabled(s, a)
    ensures a.Tick? ==> Untimed(TimedDo(s, a)) == Untimed(s)
    ensures a.Act? ==> (Next(Untimed(s), a.action, Untimed(TimedDo(s, a))) <==> Unseen(s, a))
  {
    if a.Act? {
      ExpiryIsInvisibleIff(s.redis, s.now, OpAt(s, a));
      if !Unseen(s, a) && a.action.ClaimStep? {
        assert TimedDo(s, a).core.calls[a.action.c].phase == Executing;
        assert Do(Untimed(s), a.action).core.calls[a.action.c].phase == LookingUp;
      }
    }
  }

  ghost predicate UnseenRun(states: seq<TimedState>, actions: seq<TimedAction>) {
    && TimedRun(states, actions)
    && forall i ::
        0 <= i < |actions| ==> TimedNext(states[i], actions[i], states[i + 1]) && Unseen(states[i], actions[i])
  }

  /** Every run that sees no expiry ends in a state the reference protocol reaches, so it keeps all its promises. */
  lemma {:induction false} UnseenRunRefines(states: seq<TimedState>, actions: seq<TimedAction>)
    requires UnseenRun(states, actions)
    ensures Reachable(Untimed(states[|actions|]))
    decreases |actions|
  {
    if actions == [] {
      assert Untimed(TIMED_INIT).store == INIT.store;
      InitReachable();
    } else {
      var n := |actions| - 1;
      UnseenRunRefines(states[..|actions|], actions[..n]);
      var s, a := states[n], actions[n];
      assert TimedNext(s, a, states[|actions|]);
      TimedStepRefinesIff(s, a);
      if a.Act? {
        Step(Untimed(s), a.action);
      }
    }
  }

  /** Exclusion, and the one-commit bound, over Redis. */
  lemma AtMostOneCommitOverRedis(states: seq<TimedState>, actions: seq<TimedAction>, k: Key)
    requires UnseenRun(states, actions)
    ensures MutualExclusion(Untimed(states[|actions|]))
    ensures var core := states[|actions|].core;
            && |Committed(core, k)| <= core.slips[k] + 1
            && (core.slips[k] == 0 ==>
                  forall c | c in core.calls && core.calls[c].key == k && core.calls[c].phase.Returned? ::
                    Committed(core, k) == [core.calls[c].phase.response])
  {
    UnseenRunRefines(states, actions);
    AtMostOneCommitPerKey(Untimed(states[|actions|]), k);
  }

  // ---- Every run, late ones included

  /** A call that may still commit, or has yet to give its claim back. */
  predicate Licence(p: Phase) { p.Executing? || (p.Releasing? && !p.saved) }

  function Licensed(core: Core, k: Key): set<CallId> {
    set c | c in core.calls && core.calls[c].key == k && Licence(core.calls[c].phase)
  }

  function Count(b: bool): nat { if b then 1 else 0 }

  /** A commit needs a claim, and a claim needs a free key: only slips, lapses and strays make one more than once. */
  ghost predicate CommitsPaidFor(s: TimedState, k: Key) {
    |Committed(s.core, k)| + |Licensed(s.core, k)| + Count(k !in s.redis)
    <= 1 + s.core.slips[k] + s.lapses[k] + s.strays[k]
  }

  /** A response that a releasing call has stored is there, unless it lapsed; so no release strays before a lapse. */
  ghost predicate StraysNeedLapses(s: TimedState) {
    && (forall c | c in s.core.calls && s.core.calls[c].phase.Releasing? && s.core.calls[c].phase.saved ::
          var k := s.core.calls[c].key;
          s.lapses[k] > 0 || (k in s.redis && s.redis[k].entry.Completed?))
    && (forall k :: s.strays[k] > 0 ==> s.lapses[k] > 0)
  }

  /** The call that wrote a marker has not saved or released, though it may have crashed. */
  predicate Owns(p: Phase) {
    p.Executing? || p.Saving? || (p.Releasing? && !p.saved) || (p.Crashed? && p.held)
  }

  ghost predicate MarkersAreOwned(s: TimedState) {
    forall k | HasMarker(s, k) ::
      k in s.owners && s.owners[k] in s.core.calls && s.core.calls[s.owners[k]].key == k
        && Owns(s.core.calls[s.owners[k]].phase)
  }

  ghost predicate TimedInv(s: TimedState) {
    && MarkersAreOwned(s) && StraysNeedLapses(s) && ValuesCommitted(Untimed(s))
    && forall k :: CommitsPaidFor(s, k)
  }

  lemma OtherKeysUntouched(s: TimedState, a: TimedAction, k: Key)
    requires TimedEnabled(s, a) && (a.Act? ==> OpAt(s, a).Skip? || OpAt(s, a).key != k)
    ensures var s' := TimedDo(s, a);
            && (k in s'.redis <==> k in s.redis) && (k in s.redis ==> s'.redis[k] == s.redis[k])
            && (k in s'.owners <==> k in s.owners) && (k in s.owners ==> s'.owners[k] == s.owners[k])
            && s'.lapses[k] == s.lapses[k] && s'.strays[k] == s.strays[k]
  {
  }

  lemma OneMemberChanges(before: set<CallId>, after: set<CallId>, c: CallId)
    requires before - {c} == after - {c}
    ensures |after| == |before| - Count(c in before) + Count(c in after)
  {
    assert before == (before - {c}) + if c in before then {c} else {};
    assert after == (after - {c}) + if c in after then {c} else {};
  }

  lemma LicensedAfter(core: Core, a: Action, reply: Reply, k: Key)
    requires Enabled(core, a)
    ensures var core' := After(core, a, reply);
            |Licensed(core', k)| == |Licensed(core, k)| - Count(a.c in Licensed(core, k))
              + Count(a.c in Licensed(core', k))
  {
    var core' := After(core, a, reply);
    forall d | d != a.c ensures d in Licensed(core', k) <==> d in Licensed(core, k) {
      OtherCallsUntouched(core, a, reply, d);
    }
    OneMemberChanges(Licensed(core, k), Licensed(core', k), a.c);
  }

  /** What a step on a key does to its being free, against the lapses and strays it adds. */
  lemma KeyAfter(s: TimedState, a: Action, k: Key)
    requires Enabled(s.core, a) && !a.Arrive? && s.core.calls[a.c].key == k
    ensures var s' := TimedDo(s, Act(a));
            var added := s'.lapses[k] + s'.strays[k] - s.lapses[k] - s.strays[k];
            if a.ClaimStep? && ReplyAt(s, Act(a)).claimed then k in s'.redis && Count(k !in s.redis) + added >= 1
            else
              Count(k !in s'.redis)
              <= Count(k !in s.redis) + added + Count(a.ReleaseStep? && !s.core.calls[a.c].phase.saved)
  {
  }

  lemma PaymentPreserved(s: TimedState, a: Action, k: Key)
    requires CommitsPaidFor(s, k) && Enabled(s.core, a)
    ensures CommitsPaidFor(TimedDo(s, Act(a)), k)
  {
    var reply := ReplyAt(s, Act(a));
    CountersAfter(s.core, a, reply, k);
    LicensedAfter(s.core, a, reply, k);
    if a.Arrive? || s.core.calls[a.c].key != k {
      OtherKeysUntouched(s, Act(a), k);
    } else {
      KeyAfter(s, a, k);
    }
  }

  lemma OwnersPreserved(s: TimedState, a: Action)
    requires MarkersAreOwned(s) && Enabled(s.core, a)
    ensures MarkersAreOwned(TimedDo(s, Act(a)))
  {
    var s' := TimedDo(s, Act(a));
    forall k | HasMarker(s', k)
      ensures k in s'.owners && s'.owners[k] in s'.core.calls && s'.core.calls[s'.owners[k]].key == k
              && Owns(s'.core.calls[s'.owners[k]].phase)
    {
      if a.Arrive? || s.core.calls[a.c].key != k {
        OtherKeysUntouched(s, Act(a), k);
      }
      if s'.owners[k] != a.c {
        OtherCallsUntouched(s.core, a, ReplyAt(s, Act(a)), s.owners[k]);
      }
    }
  }

  lemma StraysPreserved(s: TimedState, a: Action)
    requires StraysNeedLapses(s) && Enabled(s.core, a)
    ensures StraysNeedLapses(TimedDo(s, Act(a)))
  {
    var s' := TimedDo(s, Act(a));
    forall c | c in s'.core.calls && s'.core.calls[c].phase.Releasing? && s'.core.calls[c].phase.saved
      ensures var k := s'.core.calls[c].key; s'.lapses[k] > 0 || (k in s'.redis && s'.redis[k].entry.Completed?)
    {
      if c != a.c {
        OtherCallsUntouched(s.core, a, ReplyAt(s, Act(a)), c);
        if a.Arrive? || s.core.calls[a.c].key != s.core.calls[c].key {
          OtherKeysUntouched(s, Act(a), s.core.calls[c].key);
        }
      }
    }
  }

  lemma TimedValuesPreserved(s: TimedState, a: Action)
    requires ValuesCommitted(Untimed(s)) && Enabled(s.core, a)
    ensures ValuesCommitted(Untimed(TimedDo(s, Act(a))))
  {
    var s', reply := TimedDo(s, Act(a)), ReplyAt(s, Act(a));
    var store' := Written(s'.redis);
    forall k | k in store' && store'[k].Completed? ensures store'[k].response in Committed(s'.core, k) {
      CountersAfter(s.core, a, reply, k);
      if a.Arrive? || s.core.calls[a.c].key != k {
        OtherKeysUntouched(s, Act(a), k);
      }
      assert k in Written(s.redis) ==> Written(s.redis)[k] == s.redis[k].entry;
    }
    forall c | c in s'.core.calls && (s'.core.calls[c].phase.Saving? || s'.core.calls[c].phase.Returned?)
      ensures s'.core.calls[c].phase.response in Committed(s'.core, s'.core.calls[c].key)
    {
      CountersAfter(s.core, a, reply, s'.core.calls[c].key);
      if c != a.c {
        OtherCallsUntouched(s.core, a, reply, c);
      } else if a.FindStep? {
        var k := s.core.calls[c].key;
        assert k in s.redis ==> Written(s.redis)[k] == s.redis[k].entry;
      }
    }
  }

  lemma TimedInvPreserved(s: TimedState, a: TimedAction)
    requires TimedInv(s) && TimedEnabled(s, a)
    ensures TimedInv(TimedDo(s, a))
  {
    match a
    case Tick(elapsed) =>
      var s' := TimedDo(s, a);
      assert Untimed(s') == Untimed(s);
      forall k ensures CommitsPaidFor(s', k) {
        assert CommitsPaidFor(s, k);
      }
    case Act(x) =>
      OwnersPreserved(s, x);
      StraysPreserved(s, x);
      TimedValuesPreserved(s, x);
      forall k ensures CommitsPaidFor(TimedDo(s, a), k) {
        PaymentPreserved(s, x, k);
      }
  }

  lemma {:induction false} TimedInvOfRun(states: seq<TimedState>, actions: seq<TimedAction>, i: nat)
    requires TimedRun(states, actions) && i < |states|
    ensures TimedInv(states[i])
  {
    if i == 0 {
      assert forall k :: Licensed(TIMED_INIT.core, k) == {};
    } else {
      TimedInvOfRun(states, actions, i - 1);
      assert TimedNext(states[i - 1], actions[i - 1], states[i]);
      TimedInvPreserved(states[i - 1], actions[i - 1]);
    }
  }

  lemma InvOfReachable(s: TimedState)
    requires TimedReachable(s)
    ensures TimedInv(s)
  {
    var states, actions :| TimedRun(states, actions) && states[|actions|] == s;
    TimedInvOfRun(states, actions, |actions|);
  }

  /**
    In every run, however late calls are: a key's commits are at most one more than its slips, lapses and strays,
    and there are no strays without a lapse. So a key none of whose values was found expired commits at most once
    more than it slips; and with no slip either, whatever any call returned is the one commit's response.
  */
  lemma CommitsBoundedInEveryRun(s: TimedState, k: Key)
    requires TimedReachable(s)
    ensures |Committed(s.core, k)| <= 1 + s.core.slips[k] + s.lapses[k] + s.strays[k]
    ensures s.lapses[k] == 0 ==> s.strays[k] == 0
    ensures forall c | c in s.core.calls && s.core.calls[c].key == k && s.core.calls[c].phase.Returned? ::
              && s.core.calls[c].phase.response in Committed(s.core, k)
              && (s.core.slips[k] == 0 && s.lapses[k] == 0 ==> Committed(s.core, k) == [s.core.calls[c].phase.response])
  {
    InvOfReachable(s);
    assert CommitsPaidFor(s, k);
  }

  // ---- A claim left behind by a crash

  /**
    A call stopped while its marker, written at this time, was in place, and no other call is inside a claim
    of the key.
  */
  ghost predicate LeftBehind(s: TimedState, k: Key, c: CallId, claimedAt: nat) {
    && HasMarker(s, k) && s.redis[k].writtenAt == claimedAt && k in s.owners && s.owners[k] == c
    && c in s.core.calls && s.core.calls[c].key == k && s.core.calls[c].phase.Crashed?
    && forall d | d in s.core.calls && s.core.calls[d].key == k ::
         !(s.core.calls[d].phase.Executing? || s.core.calls[d].phase.Saving? || s.core.calls[d].phase.Releasing?)
  }

  /** The next claim takes the key over exactly from thirty seconds after the abandoned one. */
  lemma AbandonedClaimIsRetakenIff(s: TimedState, k: Key, c: CallId, claimedAt: nat, d: CallId)
    requires LeftBehind(s, k, c, claimedAt)
    requires Enabled(s.core, ClaimStep(d)) && s.core.calls[d].key == k
    ensures TimedDo(s, Act(ClaimStep(d))).core.calls[d].phase
         == if claimedAt + CLAIM_TTL <= s.now then Executing else LookingUp
  {
  }

  lemma LeftBehindStepStable(s: TimedState, a: TimedAction, s': TimedState, k: Key, c: CallId, claimedAt: nat)
    requires LeftBehind(s, k, c, claimedAt) && TimedNext(s, a, s') && s.now < claimedAt + CLAIM_TTL
    ensures LeftBehind(s', k, c, claimedAt)
    ensures Committed(s'.core, k) == Committed(s.core, k)
    ensures s'.now >= s.now
  {
    if a.Act? {
      var x, reply := a.action, ReplyAt(s, a);
      CountersAfter(s.core, x, reply, k);
      if x.Arrive? || s.core.calls[x.c].key != k {
        OtherKeysUntouched(s, a, k);
      }
      forall d | d in s'.core.calls && s'.core.calls[d].key == k
        ensures var phase := s'.core.calls[d].phase;
                !phase.Executing? && !phase.Saving? && !phase.Releasing?
      {
        if d != x.c {
          OtherCallsUntouched(s.core, x, reply, d);
        }
      }
    }
  }

  /** Until then it fails closed: the marker stays and nothing is committed for the key. */
  lemma {:induction false} AbandonedClaimHoldsUntilExpiry(states: seq<TimedState>, actions: seq<TimedAction>, i: nat,
                                                          j: nat, k: Key, c: CallId, claimedAt: nat)
    requires TimedRun(states, actions) && i <= j < |states|
    requires LeftBehind(states[i], k, c, claimedAt) && states[j].now < claimedAt + CLAIM_TTL
    ensures LeftBehind(states[j], k, c, claimedAt)
    ensures Committed(states[j].core, k) == Committed(states[i].core, k)
    decreases j
  {
    if i == j {
    } else {
      assert TimedNext(states[j - 1], actions[j - 1], states[j]);
      assert states[j - 1].now <= states[j].now;
      AbandonedClaimHoldsUntilExpiry(states, actions, i, j - 1, k, c, claimedAt);
      LeftBehindStepStable(states[j - 1], actions[j - 1], states[j], k, c, claimedAt);
    }
  }

  // ---- What lateness breaks

  /** A fresh call that finds the key free or expired claims it and starts executing. */
  lemma ArriveAndClaim(s: TimedState, c: CallId, k: Key) returns (s': TimedState)
    requires TimedReachable(s) && c !in s.core.calls && (k in s.redis ==> Expired(s.redis[k], s.now))
    ensures TimedReachable(s')
    ensures s' == TimedState(s.redis[k := Stamped(InFlight, s.now)], s.now,
                             s.core.(calls := s.core.calls[c := Call(k, Executing)]),
                             s.owners[k := c], if k in s.redis then s.lapses + multiset{k} else s.lapses, s.strays)
  {
    TimedStep(s, Act(Arrive(c, k)));
    var s1 := TimedDo(s, Act(Arrive(c, k)));
    TimedStep(s1, Act(ClaimStep(c)));
    s' := TimedDo(s1, Act(ClaimStep(c)));
    assert s'.redis == s.redis[k := Stamped(InFlight, s.now)];
    assert s'.core.calls == s.core.calls[c := Call(k, Executing)];
  }

  lemma ClaimAndCommit(s: TimedState, c: CallId, k: Key, response: Response) returns (s': TimedState)
    requires TimedReachable(s) && c !in s.core.calls && (k in s.redis ==> Expired(s.redis[k], s.now))
    ensures TimedReachable(s')
    ensures s'.redis == s.redis[k := Stamped(InFlight, s.now)] && s'.now == s.now
    ensures s'.core.calls == s.core.calls[c := Call(k, Saving(response))] && s'.core.slips == s.core.slips
    ensures Committed(s'.core, k) == Committed(s.core, k) + [response]
    ensures s'.lapses == if k in s.redis then s.lapses + multiset{k} else s.lapses
  {
    var s1 := ArriveAndClaim(s, c, k);
    TimedStep(s1, Act(Commit(c, response)));
    s' := TimedDo(s1, Act(Commit(c, response)));
  }

  /** The bound is tight: a commit, a crash before the save, thirty seconds, and a retry commits the same key again. */
  lemma ExpiredClaimCommitsTwice(k: Key, first: Response, second: Response) returns (s: TimedState)
    ensures TimedReachable(s) && Committed(s.core, k) == [first, second]
    ensures s.core.slips[k] == 0 && s.lapses[k] == 1
  {
    TimedInitReachable();
    var s1 := ClaimAndCommit(TIMED_INIT, 0, k, first);
    TimedStep(s1, Act(Crash(0)));
    var s2 := TimedDo(s1, Act(Crash(0)));
    TimedStep(s2, Tick(CLAIM_TTL));
    s := ClaimAndCommit(TimedDo(s2, Tick(CLAIM_TTL)), 1, k, second);
  }

  /**
    After thirty seconds a second call claims the key while the first still runs; and because all claims share
    one marker, the first call's release then frees the second call's fresh claim for a third.
  */
  lemma LateReleaseFreesAnotherClaim(k: Key) returns (s: TimedState)
    ensures TimedReachable(s)
    ensures s.now == CLAIM_TTL && s.redis == map[k := Stamped(InFlight, CLAIM_TTL)]
    ensures s.core.calls == map[0 := Call(k, Threw), 1 := Call(k, Executing), 2 := Call(k, Executing)]
  {
    TimedInitReachable();
    var s1 := ArriveAndClaim(TIMED_INIT, 0, k);
    TimedStep(s1, Tick(CLAIM_TTL));
    var s2 := ArriveAndClaim(TimedDo(s1, Tick(CLAIM_TTL)), 1, k);
    assert s2.core.calls == map[0 := Call(k, Executing), 1 := Call(k, Executing)];
    var s3 := FailAndRelease(s2, 0, k);
    s := ArriveAndClaim(s3, 2, k);
  }

  lemma FailAndRelease(s: TimedState, c: CallId, k: Key) returns (s': TimedState)
    requires TimedReachable(s) && c in s.core.calls && s.core.calls[c] == Call(k, Executing) && HasMarker(s, k)
    ensures TimedReachable(s')
    ensures s'.redis == s.redis - {k} && s'.now == s.now && s'.core.calls == s.core.calls[c := Call(k, Threw)]
  {
    TimedStep(s, Act(Fail(c)));
    var s1 := TimedDo(s, Act(Fail(c)));
    TimedStep(s1, Act(ReleaseStep(c)));
    s' := TimedDo(s1, Act(ReleaseStep(c)));
  }
}
