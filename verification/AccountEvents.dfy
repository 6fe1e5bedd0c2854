/**
  account.created from the outbox row to the consumer: relays that may send a row more than once, a work queue,
  a delayed retry queue, a dead-letter queue, and any number of deliveries being handled at once, each of them
  a call of the claim protocol over Redis, with time passing between any two steps.

  A copy is one message in the broker. It keeps its identity from the moment a relay sends it, through every
  retry, until it is acknowledged or dead-lettered. The counters of a copy are history variables.
*/
module AccountEvents {
  import opened IdempotencyStore
  import opened RedisIdempotency
  import opened Sums
  import P = IdempotencyProtocol
  import R = RedisProtocol

  type EventId = Key

  /** What the consumer saves for a processed event. */
  const DONE: Response := Truthy("true")

  /** A delivery being handled shows the phase of its call; one whose call is over is failing or acknowledging. */
  datatype Place =
    | WorkQueue
    | RetryQueue
    | DeadLetterQueue
    | Held(call: P.CallId, phase: P.Phase)
    | Failing
    | Acking
    | Gone

  predicate InAQueue(place: Place) { place.WorkQueue? || place.RetryQueue? || place.DeadLetterQueue? }

  datatype Copy = Copy(event: EventId, retries: nat, place: Place, attempts: nat, crashes: nat)

  datatype State = State(
    maxRetries: nat,
    committed: set<EventId>,          // outbox rows of committed sign-ups
    unpublished: set<EventId>,        // those whose published_at is still NULL
    sentUnmarked: multiset<EventId>,  // sent by some relay that has yet to mark the row
    copies: seq<Copy>,
    claims: R.TimedState,             // Redis, the clock and the calls
    sent: set<EventId>,               // history
    dropped: set<EventId>)            // history: a copy was turned away by the marker of a stopped consumer

  /** What the consumer or the broker does next with one copy. */
  datatype Step =
    | Deliver(call: P.CallId)
    | Consume(action: P.Action)
    | HandleFailure
    | Acknowledge
    | DelayElapses
    | Stop
    | StopAfterRepublish

  datatype Action =
    | SignUp(e: EventId)
    | Send(e: EventId)
    | Mark(e: EventId)
    | RelayStops(e: EventId)
    | TimePasses(elapsed: nat)
    | Handle(c: nat, step: Step)

  function Init(maxRetries: nat): State {
    State(maxRetries, {}, {}, multiset{}, [], R.TIMED_INIT, {}, {})
  }

  /** The part of a step that the claim protocol takes. */
  function ClaimsStep(copy: Copy, step: Step): R.TimedAction {
    match step
    case Deliver(call) => R.Act(P.Arrive(call, copy.event))
    case Consume(x) => R.Act(x)
    case Stop => if copy.place.Held? then R.Act(P.Crash(copy.place.call)) else R.Tick(0)
    case _ => R.Tick(0)
  }

  predicate StepEnabled(claims: R.TimedState, copy: Copy, step: Step) {
    && R.TimedEnabled(claims, ClaimsStep(copy, step))
    && match step
       case Deliver(_) => copy.place.WorkQueue?
       case Consume(x) =>
         && copy.place.Held? && copy.place.call == x.c && !x.Arrive? && !x.Crash?
         && (x.Commit? || x.CommitUnacknowledged? ==> x.response == DONE)
       case HandleFailure => copy.place.Failing?
       case Acknowledge => copy.place.Acking?
       case DelayElapses => copy.place.RetryQueue?
       case Stop => copy.place.Held? || copy.place.Failing? || copy.place.Acking?
       case StopAfterRepublish => copy.place.Failing?
  }

  predicate Enabled(s: State, a: Action) {
    match a
    case SignUp(e) => e !in s.committed
    case Send(e) => e in s.committed
    case Mark(e) => e in s.sentUnmarked
    case RelayStops(e) => e in s.sentUnmarked
    case TimePasses(_) => true
    case Handle(c, step) => c < |s.copies| && StepEnabled(s.claims, s.copies[c], step)
  }

  /** handleFailure: one more retry on the header, and the dead-letter queue once that exceeds the limit. */
  function Republished(maxRetries: nat, copy: Copy): Copy {
    var retryCount := copy.retries + 1;
    copy.(retries := retryCount, place := if retryCount > maxRetries then DeadLetterQueue else RetryQueue)
  }

  /** Where a delivery stands once its call is in this phase: an error is handled, everything else acknowledged. */
  function Standing(call: P.CallId, phase: P.Phase): Place {
    if P.Running(phase) then Held(call, phase) else if phase.Threw? then Failing else Acking
  }

  /** The acting copy after the step, given the calls after it. */
  function Moved(maxRetries: nat, copy: Copy, step: Step, calls: map<P.CallId, P.Call>): (moved: Copy)
    ensures moved.event == copy.event
  {
    match step
    case Deliver(call) => copy.(place := Held(call, P.Claiming))
    case Consume(x) =>
      var attempted := x.Commit? || x.CommitUnacknowledged? || x.Fail?;
      copy.(place := if x.c in calls then Standing(x.c, calls[x.c].phase) else copy.place,
            attempts := copy.attempts + if attempted then 1 else 0)
    case HandleFailure => Republished(maxRetries, copy)
    case Acknowledge => copy.(place := Gone)
    case DelayElapses => copy.(place := WorkQueue)
    case Stop => copy.(place := WorkQueue, crashes := copy.crashes + 1)
    case StopAfterRepublish => Republished(maxRetries, copy)
  }

  /** The redelivered original when the consumer stopped after republishing and before acknowledging. */
  function Redelivered(copy: Copy, step: Step): seq<Copy> {
    if step.StopAfterRepublish? then [copy.(place := WorkQueue, crashes := copy.crashes + 1)] else []
  }

  /** The key's marker is alive and was written by a call that has stopped. */
  predicate MarkedByTheDead(claims: R.TimedState, e: EventId) {
    && R.HasMarker(claims, e) && !Expired(claims.redis[e], claims.now)
    && e in claims.owners && claims.owners[e] in claims.core.calls && claims.core.calls[claims.owners[e]].phase.Crashed?
  }

  /** The step turns a delivery away because of such a marker. */
  predicate Drops(s: State, a: Action, e: EventId) {
    && a.Handle? && a.c < |s.copies| && s.copies[a.c].event == e
    && a.step.Consume? && a.step.action.ClaimStep? && MarkedByTheDead(s.claims, e)
  }

  function DoHandle(s: State, c: nat, step: Step): State
    requires c < |s.copies| && StepEnabled(s.claims, s.copies[c], step)
  {
    var copy := s.copies[c];
    var claims := R.TimedDo(s.claims, ClaimsStep(copy, step));
    s.(claims := claims,
       copies := s.copies[c := Moved(s.maxRetries, copy, step, claims.core.calls)] + Redelivered(copy, step),
       dropped := if Drops(s, Handle(c, step), copy.event) then s.dropped + {copy.event} else s.dropped)
  }

  function Do(s: State, a: Action): State
    requires Enabled(s, a)
  {
    match a
    case SignUp(e) => s.(committed := s.committed + {e}, unpublished := s.unpublished + {e})
    case Send(e) => s.(sentUnmarked := s.sentUnmarked + multiset{e}, sent := s.sent + {e},
                       copies := s.copies + [Copy(e, 0, WorkQueue, 0, 0)])
    case Mark(e) => s.(sentUnmarked := s.sentUnmarked - multiset{e}, unpublished := s.unpublished - {e})
    case RelayStops(e) => s.(sentUnmarked := s.sentUnmarked - multiset{e})
    case TimePasses(elapsed) => s.(claims := R.TimedDo(s.claims, R.Tick(elapsed)))
    case Handle(c, step) => DoHandle(s, c, step)
  }

  ghost predicate Next(s: State, a: Action, s': State) {
    Enabled(s, a) && s' == Do(s, a)
  }

  ghost predicate Run(states: seq<State>, actions: seq<Action>) {
    && |states| == |actions| + 1
    && states[0] == Init(states[0].maxRetries)
    && forall i :: 0 <= i < |actions| ==> Next(states[i], actions[i], states[i + 1])
  }

  // ---- Deliveries and their calls

  predicate Holds(s: State, c: nat, call: P.CallId) {
    c < |s.copies| && s.copies[c].place.Held? && s.copies[c].place.call == call
  }

  /** Every delivery being handled is a running call for its event, and no other delivery is. */
  ghost predicate HeldCopiesAreCalls(s: State) {
    && (forall c: nat, call | Holds(s, c, call) ::
          && call in s.claims.core.calls
          && s.claims.core.calls[call] == P.Call(s.copies[c].event, s.copies[c].place.phase)
          && P.Running(s.copies[c].place.phase))
    && (forall c: nat, d: nat, call | Holds(s, c, call) && Holds(s, d, call) :: c == d)
  }

  /** And every running call is a delivery being handled. */
  ghost predicate CallsAreHeld(s: State) {
    forall call | call in s.claims.core.calls && P.Running(s.claims.core.calls[call].phase) ::
      exists c: nat :: Holds(s, c, call)
  }

  ghost predicate Linked(s: State) { HeldCopiesAreCalls(s) && CallsAreHeld(s) }

  /** A step leaves every other copy as it was. */
  lemma OthersUntouched(s: State, a: Action, d: nat)
    requires Enabled(s, a) && d < |s.copies| && (a.Handle? ==> d != a.c)
    ensures d < |Do(s, a).copies| && Do(s, a).copies[d] == s.copies[d]
  {
  }

  /** The call a delivery step is about. */
  predicate ActsOn(copy: Copy, step: Step, call: P.CallId) {
    ClaimsStep(copy, step).Act? && ClaimsStep(copy, step).action.c == call
  }

  lemma OtherCallsUntouched(s: State, c: nat, step: Step, call: P.CallId)
    requires c < |s.copies| && StepEnabled(s.claims, s.copies[c], step) && !ActsOn(s.copies[c], step, call)
    ensures var calls, calls' := s.claims.core.calls, DoHandle(s, c, step).claims.core.calls;
            (call in calls' <==> call in calls) && (call in calls ==> calls'[call] == calls[call])
  {
    var x := ClaimsStep(s.copies[c], step);
    if x.Act? {
      P.OtherCallsUntouched(s.claims.core, x.action, R.ReplyAt(s.claims, x), call);
    }
  }

  /** One step of the consumer: its call moves on, and an attempt is counted when the call was executing. */
  lemma ConsumeMoves(s: State, c: nat, x: P.Action) returns (phase: P.Phase)
    requires HeldCopiesAreCalls(s) && Enabled(s, Handle(c, Consume(x)))
    ensures var copy := s.copies[c]; var s' := DoHandle(s, c, Consume(x));
            && copy.place.call == x.c && P.Follows(copy.place.phase, phase)
            && s'.claims.core == P.After(s.claims.core, x, R.ReplyAt(s.claims, R.Act(x)))
            && x.c in s'.claims.core.calls && phase == s'.claims.core.calls[x.c].phase
            && s'.copies == s.copies[c := copy.(place := Standing(x.c, phase),
                                                attempts := copy.attempts + R.Count(copy.place.phase.Executing?))]
  {
    assert Holds(s, c, x.c);
    P.PhaseAfter(s.claims.core, x, R.ReplyAt(s.claims, R.Act(x)));
    phase := P.After(s.claims.core, x, R.ReplyAt(s.claims, R.Act(x))).calls[x.c].phase;
  }

  /** What the acting copy holds afterwards is the call it acted on. */
  lemma ActingCopyStaysLinked(s: State, c: nat, step: Step)
    requires HeldCopiesAreCalls(s) && c < |s.copies| && StepEnabled(s.claims, s.copies[c], step)
    ensures var s' := DoHandle(s, c, step); var place := s'.copies[c].place;
            place.Held? ==>
              && ActsOn(s.copies[c], step, place.call) && place.call in s'.claims.core.calls && P.Running(place.phase)
              && s'.claims.core.calls[place.call] == P.Call(s'.copies[c].event, place.phase)
  {
    if step.Consume? {
      assert Holds(s, c, step.action.c);
      P.CallsStay(s.claims.core, step.action, R.ReplyAt(s.claims, ClaimsStep(s.copies[c], step)));
    }
  }

  lemma HeldCopiesPreserved(s: State, c: nat, step: Step)
    requires HeldCopiesAreCalls(s) && c < |s.copies| && StepEnabled(s.claims, s.copies[c], step)
    ensures HeldCopiesAreCalls(DoHandle(s, c, step))
  {
    var s' := DoHandle(s, c, step);
    ActingCopyStaysLinked(s, c, step);
    assert forall d: nat :: d < |s.copies| && d != c ==> s'.copies[d] == s.copies[d];
    forall d: nat, call | d != c && Holds(s', d, call)
      ensures Holds(s, d, call) && !ActsOn(s.copies[c], step, call)
      ensures call in s'.claims.core.calls && s'.claims.core.calls[call] == s.claims.core.calls[call]
    {
      assert Holds(s, d, call);
      assert ActsOn(s.copies[c], step, call) && !step.Deliver? ==> Holds(s, c, call);
      OtherCallsUntouched(s, c, step, call);
    }
  }

  lemma CallsStayHeld(s: State, c: nat, step: Step, call: P.CallId)
    requires Linked(s) && c < |s.copies| && StepEnabled(s.claims, s.copies[c], step)
    requires var calls := DoHandle(s, c, step).claims.core.calls; call in calls && P.Running(calls[call].phase)
    ensures exists d: nat :: Holds(DoHandle(s, c, step), d, call)
  {
    var s' := DoHandle(s, c, step);
    if ActsOn(s.copies[c], step, call) {
      assert Holds(s', c, call);
    } else {
      OtherCallsUntouched(s, c, step, call);
      var d: nat :| Holds(s, d, call);
      assert d != c;
      assert Holds(s', d, call);
    }
  }

  lemma LinkedPreserved(s: State, a: Action)
    requires Linked(s) && Enabled(s, a)
    ensures Linked(Do(s, a))
  {
    var s' := Do(s, a);
    if a.Handle? {
      HeldCopiesPreserved(s, a.c, a.step);
      forall call | call in s'.claims.core.calls && P.Running(s'.claims.core.calls[call].phase)
        ensures exists d: nat :: Holds(s', d, call)
      {
        CallsStayHeld(s, a.c, a.step, call);
      }
    } else {
      assert forall c: nat, call :: Holds(s', c, call) <==> Holds(s, c, call);
    }
  }

  lemma ClaimsMove(s: State, a: Action)
    requires R.TimedReachable(s.claims) && Enabled(s, a)
    ensures R.TimedReachable(Do(s, a).claims)
  {
    match a
    case TimePasses(elapsed) => R.TimedStep(s.claims, R.Tick(elapsed));
    case Handle(c, step) => R.TimedStep(s.claims, ClaimsStep(s.copies[c], step));
    case _ =>
  }

  /**
    A marker belongs to a delivery that is being handled and will act on its event, or to one whose consumer
    stopped.
  */
  lemma MarkersBelongToDeliveries(s: State, e: EventId)
    requires R.TimedReachable(s.claims) && Linked(s) && R.HasMarker(s.claims, e)
    ensures e in s.claims.owners && s.claims.owners[e] in s.claims.core.calls
    ensures var owner := s.claims.owners[e];
            || s.claims.core.calls[owner].phase.Crashed?
            || exists c: nat :: Holds(s, c, owner) && s.copies[c].event == e && Alive(s.copies[c].place)
  {
    R.InvOfReachable(s.claims);
    var owner := s.claims.owners[e];
    if !s.claims.core.calls[owner].phase.Crashed? {
      var c: nat :| Holds(s, c, owner);
      assert s.copies[c].event == e && Alive(s.copies[c].place);
    }
  }

  // ---- No event is lost

  /** In a queue, or held by a delivery that will not just acknowledge it. */
  predicate Alive(p: Place) {
    match p
    case Gone => false
    case Acking => false
    case Held(_, phase) => !phase.LookingUp?
    case _ => true
  }

  predicate IsAlive(s: State, c: nat, e: EventId) {
    c < |s.copies| && s.copies[c].event == e && Alive(s.copies[c].place)
  }

  /** The side effect has run for this event. */
  predicate Processed(s: State, e: EventId) { P.Committed(s.claims.core, e) != [] }

  ghost predicate Traced(s: State, e: EventId) {
    Processed(s, e) || exists c: nat :: IsAlive(s, c, e)
  }

  ghost predicate NothingLost(s: State) {
    && (forall e | e in s.sentUnmarked :: e in s.sent)
    && (forall e | e in s.committed :: e in s.unpublished || e in s.sent)
    && (forall e | e in s.sent && e !in s.dropped :: Traced(s, e))
  }

  ghost predicate ClaimInv(s: State) { R.TimedReachable(s.claims) && Linked(s) }

  lemma ProcessedStays(s: State, a: Action, e: EventId)
    requires Enabled(s, a) && Processed(s, e)
    ensures Processed(Do(s, a), e)
  {
    if a.Handle? && ClaimsStep(s.copies[a.c], a.step).Act? {
      var x := ClaimsStep(s.copies[a.c], a.step);
      P.CountersAfter(s.claims.core, x.action, R.ReplyAt(s.claims, x), e);
    }
  }

  /** A delivery whose claim is refused meets a response, which was processed, or the marker of some other delivery. */
  lemma RefusedClaimLeavesATrace(s: State, c: nat, x: P.Action, e: EventId)
    requires ClaimInv(s) && Enabled(s, Handle(c, Consume(x))) && x.ClaimStep? && s.copies[c].event == e
    requires !R.ReplyAt(s.claims, R.Act(x)).claimed && !MarkedByTheDead(s.claims, e)
    ensures Traced(Do(s, Handle(c, Consume(x))), e)
  {
    var s' := Do(s, Handle(c, Consume(x)));
    assert Holds(s, c, x.c);
    R.InvOfReachable(s.claims);
    if R.HasMarker(s.claims, e) {
      MarkersBelongToDeliveries(s, e);
      var d: nat :| Holds(s, d, s.claims.owners[e]) && s.copies[d].event == e && Alive(s.copies[d].place);
      assert d != c;
      OthersUntouched(s, Handle(c, Consume(x)), d);
      assert IsAlive(s', d, e);
    } else {
      assert Written(s.claims.redis)[e] == s.claims.redis[e].entry;
      assert Processed(s, e);
      ProcessedStays(s, Handle(c, Consume(x)), e);
    }
  }

  /** An alive copy stays alive, or was processed, or is turned away. */
  lemma ActingCopyTraced(s: State, c: nat, step: Step, e: EventId)
    requires ClaimInv(s) && Enabled(s, Handle(c, step)) && IsAlive(s, c, e) && !Drops(s, Handle(c, step), e)
    ensures Traced(DoHandle(s, c, step), e)
  {
    var s' := DoHandle(s, c, step);
    if step.Consume? {
      var x := step.action;
      assert Holds(s, c, x.c);
      R.InvOfReachable(s.claims);
      if x.ClaimStep? && !R.ReplyAt(s.claims, R.Act(x)).claimed {
        RefusedClaimLeavesATrace(s, c, x, e);
      } else if x.SaveStep? {
        assert Processed(s, e);
        ProcessedStays(s, Handle(c, step), e);
      } else {
        assert IsAlive(s', c, e);
      }
    } else {
      assert IsAlive(s', c, e);
    }
  }

  lemma TracedUnlessDropped(s: State, a: Action, e: EventId)
    requires ClaimInv(s) && Enabled(s, a) && Traced(s, e) && !Drops(s, a, e)
    ensures Traced(Do(s, a), e)
  {
    if Processed(s, e) {
      ProcessedStays(s, a, e);
    } else {
      var c: nat :| IsAlive(s, c, e);
      if a.Handle? && a.c == c {
        ActingCopyTraced(s, c, a.step, e);
      } else {
        OthersUntouched(s, a, c);
        assert IsAlive(Do(s, a), c, e);
      }
    }
  }

  /** A turned-away delivery has nothing left to do but to be acknowledged. */
  lemma DroppingStep(s: State, a: Action, e: EventId)
    requires ClaimInv(s) && Enabled(s, a) && Drops(s, a, e)
    ensures Do(s, a).copies == s.copies[a.c := s.copies[a.c].(place := Held(a.step.action.c, P.LookingUp))]
    ensures Processed(Do(s, a), e) <==> Processed(s, e)
    ensures e in Do(s, a).dropped
  {
    assert Holds(s, a.c, a.step.action.c);
    P.CountersAfter(s.claims.core, a.step.action, R.ReplyAt(s.claims, R.Act(a.step.action)), e);
  }

  /**
    Exactly how an event can be lost: its last copy is turned away by the live marker of a consumer that stopped
    before anything was processed.
  */
  lemma StepLosesIff(s: State, a: Action, e: EventId)
    requires ClaimInv(s) && Enabled(s, a) && Traced(s, e)
    ensures !Traced(Do(s, a), e)
            <==> Drops(s, a, e) && !Processed(s, e) && forall d: nat | IsAlive(s, d, e) :: d == a.c
  {
    if Drops(s, a, e) {
      DroppingStep(s, a, e);
      assert forall d: nat :: IsAlive(Do(s, a), d, e) <==> d != a.c && IsAlive(s, d, e);
    } else {
      TracedUnlessDropped(s, a, e);
    }
  }

  lemma CommittedStaysKnown(s: State, a: Action)
    requires NothingLost(s) && Enabled(s, a)
    ensures var s' := Do(s, a);
            && (forall e | e in s'.sentUnmarked :: e in s'.sent)
            && (forall e | e in s'.committed :: e in s'.unpublished || e in s'.sent)
  {
  }

  lemma NothingLostPreserved(s: State, a: Action)
    requires ClaimInv(s) && NothingLost(s) && Enabled(s, a)
    ensures NothingLost(Do(s, a))
  {
    var s' := Do(s, a);
    CommittedStaysKnown(s, a);
    forall e | e in s'.sent && e !in s'.dropped ensures Traced(s', e) {
      if a == Send(e) {
        assert IsAlive(s', |s.copies|, e);
      } else {
        assert !Drops(s, a, e);
        TracedUnlessDropped(s, a, e);
      }
    }
  }

  // ---- Retries

  /** An attempt has been made since the header was last written. */
  predicate Attempted(p: Place) {
    p.Failing? || (p.Held? && (p.phase.Saving? || p.phase.Releasing?))
  }

  /** The header counts failed attempts; a redelivery may add attempts that no header counts. */
  predicate CopyInv(maxRetries: nat, copy: Copy) {
    && (copy.place.DeadLetterQueue? ==> copy.retries == maxRetries + 1)
    && (!copy.place.DeadLetterQueue? ==> copy.retries <= maxRetries)
    && copy.retries + (if Attempted(copy.place) then 1 else 0) <= copy.attempts
    && copy.attempts <= copy.retries + copy.crashes
       + (if Attempted(copy.place) || copy.place.Acking? || copy.place.Gone? then 1 else 0)
  }

  ghost predicate RetryInv(s: State) {
    forall c: nat | 0 <= c < |s.copies| :: CopyInv(s.maxRetries, s.copies[c])
  }

  lemma ActingCopyInv(s: State, c: nat, step: Step)
    requires HeldCopiesAreCalls(s) && c < |s.copies| && CopyInv(s.maxRetries, s.copies[c])
    requires StepEnabled(s.claims, s.copies[c], step)
    ensures CopyInv(s.maxRetries, DoHandle(s, c, step).copies[c])
  {
    if step.Consume? {
      var phase := ConsumeMoves(s, c, step.action);
    }
  }

  lemma RetryInvPreserved(s: State, a: Action)
    requires HeldCopiesAreCalls(s) && RetryInv(s) && Enabled(s, a)
    ensures RetryInv(Do(s, a)) && Do(s, a).maxRetries == s.maxRetries
  {
    var s' := Do(s, a);
    forall c: nat | 0 <= c < |s'.copies| ensures CopyInv(s.maxRetries, s'.copies[c]) {
      if a.Handle? && a.c == c {
        ActingCopyInv(s, c, a.step);
      } else if c < |s.copies| {
        OthersUntouched(s, a, c);
      } else if a.Handle? {
        assert CopyInv(s.maxRetries, s.copies[a.c]);
      }
    }
  }

  // ---- Every run

  ghost predicate Inv(s: State) { ClaimInv(s) && NothingLost(s) && RetryInv(s) }

  lemma InvPreserved(s: State, a: Action)
    requires Inv(s) && Enabled(s, a)
    ensures Inv(Do(s, a))
  {
    ClaimsMove(s, a);
    LinkedPreserved(s, a);
    NothingLostPreserved(s, a);
    RetryInvPreserved(s, a);
  }

  lemma {:induction false} InvOfRun(states: seq<State>, actions: seq<Action>, i: nat)
    requires Run(states, actions) && i < |states|
    ensures Inv(states[i]) && states[i].maxRetries == states[0].maxRetries
  {
    if i == 0 {
      R.TimedInitReachable();
    } else {
      InvOfRun(states, actions, i - 1);
      assert Next(states[i - 1], actions[i - 1], states[i]);
      InvPreserved(states[i - 1], actions[i - 1]);
    }
  }

  /**
    No committed sign-up is lost: its row is still unpublished, or a copy is queued, delayed, dead-lettered or
    held by a delivery that will act on it, or it has been processed. The one exception is an event one of whose
    copies was turned away by the marker of a stopped consumer.
  */
  lemma NoEventIsLost(states: seq<State>, actions: seq<Action>, i: nat, e: EventId)
    requires Run(states, actions) && i < |states| && e in states[i].committed && e !in states[i].dropped
    ensures var s := states[i]; e in s.unpublished || Processed(s, e) || exists c: nat :: IsAlive(s, c, e)
    ensures e !in states[i].unpublished ==> e in states[i].sent
  {
    InvOfRun(states, actions, i);
  }

  /** A consumer stops while its delivery holds or is about to make a claim. */
  predicate StopsInside(s: State, a: Action) {
    a.Handle? && a.step.Stop? && a.c < |s.copies| && s.copies[a.c].place.Held?
  }

  ghost predicate NobodyCrashed(s: State) {
    forall call | call in s.claims.core.calls :: !s.claims.core.calls[call].phase.Crashed?
  }

  lemma NobodyCrashes(s: State, c: nat, step: Step)
    requires NobodyCrashed(s) && Enabled(s, Handle(c, step)) && !StopsInside(s, Handle(c, step))
    ensures NobodyCrashed(DoHandle(s, c, step))
  {
    var a := ClaimsStep(s.copies[c], step);
    if a.Act? && !a.action.Arrive? {
      P.PhaseAfter(s.claims.core, a.action, R.ReplyAt(s.claims, a));
    }
    forall call | call in DoHandle(s, c, step).claims.core.calls
      ensures !DoHandle(s, c, step).claims.core.calls[call].phase.Crashed?
    {
      if a.Act? && call != a.action.c {
        P.OtherCallsUntouched(s.claims.core, a.action, R.ReplyAt(s.claims, a), call);
      }
    }
  }

  /** As long as no consumer stops inside a delivery, nothing is turned away by a stopped one's marker. */
  lemma {:induction false} NothingIsDroppedWithoutStops(states: seq<State>, actions: seq<Action>, i: nat)
    requires Run(states, actions) && i < |states|
    requires forall n | 0 <= n < i :: !StopsInside(states[n], actions[n])
    ensures states[i].dropped == {} && NobodyCrashed(states[i])
  {
    if i == 0 {
    } else {
      var s, a := states[i - 1], actions[i - 1];
      NothingIsDroppedWithoutStops(states, actions, i - 1);
      assert Next(s, a, states[i]);
      if a.Handle? {
        assert !StopsInside(s, a);
        NobodyCrashes(s, a.c, a.step);
      }
    }
  }

  /** So up to then no committed sign-up at all is lost. */
  lemma NoEventIsLostWithoutStops(states: seq<State>, actions: seq<Action>, i: nat, e: EventId)
    requires Run(states, actions) && i < |states| && e in states[i].committed
    requires forall n | 0 <= n < i :: !StopsInside(states[n], actions[n])
    ensures var s := states[i]; e in s.unpublished || Processed(s, e) || exists c: nat :: IsAlive(s, c, e)
  {
    NothingIsDroppedWithoutStops(states, actions, i);
    NoEventIsLost(states, actions, i, e);
  }

  /**
    Across all copies of an event, duplicates and retries included, processing succeeds at most once more than
    its result is lost on the way to the store or found expired there.
  */
  lemma ProcessingIsBounded(states: seq<State>, actions: seq<Action>, i: nat, e: EventId)
    requires Run(states, actions) && i < |states|
    ensures var r := states[i].claims;
            && |P.Committed(r.core, e)| <= 1 + r.core.slips[e] + r.lapses[e] + r.strays[e]
            && (r.lapses[e] == 0 ==> |P.Committed(r.core, e)| <= 1 + r.core.slips[e])
  {
    InvOfRun(states, actions, i);
    R.CommitsBoundedInEveryRun(states[i].claims, e);
  }

  /**
    A copy is attempted at most maxRetries + 1 times, and once more for each redelivery by a crash. It is
    dead-lettered exactly with header maxRetries + 1; without redeliveries, of the copies in some queue exactly
    those are dead-lettered that have been attempted that often.
  */
  lemma AttemptsAreBounded(states: seq<State>, actions: seq<Action>, i: nat, c: nat)
    requires Run(states, actions) && i < |states| && c < |states[i].copies|
    ensures var s := states[i]; var copy := s.copies[c];
            && copy.attempts <= s.maxRetries + 1 + copy.crashes
            && (copy.place.DeadLetterQueue? <==> copy.retries == s.maxRetries + 1)
            && (copy.crashes == 0 && InAQueue(copy.place) ==>
                  (copy.place.DeadLetterQueue? <==> copy.attempts == s.maxRetries + 1))
  {
    InvOfRun(states, actions, i);
    assert CopyInv(states[i].maxRetries, states[i].copies[c]);
  }

  // ---- A consumer that stops inside its claim

  /**
    The copy that is redelivered after its consumer stopped inside a claim is attempted if and only if its own
    claim comes thirty seconds or more after that one; if it comes earlier, it is dropped.
  */
  lemma RedeliveryIsAttemptedIff(s: State, c: nat, call: P.CallId, stopped: P.CallId, claimedAt: nat)
    requires ClaimInv(s) && Holds(s, c, call) && s.copies[c].place.phase.Claiming?
    requires R.LeftBehind(s.claims, s.copies[c].event, stopped, claimedAt)
    ensures StepEnabled(s.claims, s.copies[c], Consume(P.ClaimStep(call)))
    ensures var s' := DoHandle(s, c, Consume(P.ClaimStep(call))); var late := claimedAt + CLAIM_TTL <= s.claims.now;
            && s'.copies[c].place == Held(call, if late then P.Executing else P.LookingUp)
            && (!late <==> Drops(s, Handle(c, Consume(P.ClaimStep(call))), s.copies[c].event))
  {
    R.AbandonedClaimIsRetakenIff(s.claims, s.copies[c].event, stopped, claimedAt, call);
  }

  // ---- Draining

  /** Steps that bring a delivery forward: everything but new copies and crashes. */
  predicate Progress(a: Action) { a.Handle? && !a.step.Stop? && !a.step.StopAfterRepublish? }

  /** How far a copy is from rest: ten per attempt it may still get, and its position within the attempt. */
  function Weight(maxRetries: nat): Copy -> int {
    (copy: Copy) =>
      if copy.place.Gone? || copy.place.DeadLetterQueue? then 0
      else 10 * (maxRetries + 1 - copy.retries) + Rank(copy.place)
  }

  function Rank(p: Place): int {
    match p
    case RetryQueue => 9
    case WorkQueue => 8
    case Held(_, phase) =>
      (match phase
       case Claiming => 7
       case Executing => 6
       case LookingUp => 5
       case Saving(_) => 5
       case Releasing(_) => 4
       case _ => 0)
    case Failing => 3
    case Acking => 2
    case _ => 0
  }

  function Busy(s: State): int { Sum(s.copies, Weight(s.maxRetries)) }

  lemma ActingCopyAdvances(s: State, c: nat, step: Step)
    requires HeldCopiesAreCalls(s) && Enabled(s, Handle(c, step)) && Progress(Handle(c, step))
    requires CopyInv(s.maxRetries, s.copies[c])
    ensures Weight(s.maxRetries)(DoHandle(s, c, step).copies[c]) < Weight(s.maxRetries)(s.copies[c])
  {
    if step.Consume? {
      var phase := ConsumeMoves(s, c, step.action);
    }
  }

  lemma ProgressDecreases(s: State, a: Action, s': State)
    requires HeldCopiesAreCalls(s) && RetryInv(s) && Next(s, a, s') && Progress(a)
    ensures Busy(s') < Busy(s)
  {
    assert CopyInv(s.maxRetries, s.copies[a.c]);
    ActingCopyAdvances(s, a.c, a.step);
    assert s'.copies == s.copies[a.c := s'.copies[a.c]];
    Update(s.copies, a.c, s'.copies[a.c], Weight(s.maxRetries));
  }

  lemma {:induction false} BusyIsZeroIffAtRest(copies: seq<Copy>, maxRetries: nat)
    requires forall c: nat | c < |copies| :: CopyInv(maxRetries, copies[c])
    ensures 0 <= Sum(copies, Weight(maxRetries))
    ensures Sum(copies, Weight(maxRetries)) == 0
            <==> forall c: nat | c < |copies| :: copies[c].place.Gone? || copies[c].place.DeadLetterQueue?
  {
    if copies == [] {
    } else {
      var n := |copies| - 1;
      assert forall c: nat | c < n :: copies[..n][c] == copies[c];
      BusyIsZeroIffAtRest(copies[..n], maxRetries);
      assert CopyInv(maxRetries, copies[n]);
      assert copies[n].place.Gone? || copies[n].place.DeadLetterQueue? || Weight(maxRetries)(copies[n]) > 0;
    }
  }

  /** Some identifier that none of these calls has. */
  lemma {:induction false} FreshCall(ids: set<P.CallId>) returns (call: P.CallId)
    ensures forall id | id in ids :: id < call
  {
    if ids == {} {
      call := 0;
    } else {
      var id :| id in ids;
      var above := FreshCall(ids - {id});
      call := if id < above then above else id + 1;
      assert forall other | other in ids :: other == id || other in ids - {id};
    }
  }

  lemma NextStep(s: State, c: nat) returns (step: Step)
    requires HeldCopiesAreCalls(s) && c < |s.copies| && !s.copies[c].place.Gone? && !s.copies[c].place.DeadLetterQueue?
    ensures Progress(Handle(c, step)) && Enabled(s, Handle(c, step))
  {
    var place := s.copies[c].place;
    var unused := FreshCall(s.claims.core.calls.Keys);
    if place.Held? {
      assert Holds(s, c, place.call);
      var call := place.call;
      step := Consume(match place.phase
        case Claiming => P.ClaimStep(call)
        case LookingUp => P.FindStep(call)
        case Executing => P.Commit(call, DONE)
        case Saving(_) => P.SaveStep(call)
        case _ => P.ReleaseStep(call));
    } else {
      step := match place
        case RetryQueue => DelayElapses
        case Failing => HandleFailure
        case Acking => Acknowledge
        case _ => Deliver(unused);
    }
  }

  /** While some copy is neither acknowledged nor dead-lettered there is a step to take for it. */
  lemma SomeStepUntilDrained(states: seq<State>, actions: seq<Action>, i: nat)
    requires Run(states, actions) && i < |states|
    ensures Busy(states[i]) > 0 <==> exists a :: Progress(a) && Enabled(states[i], a)
  {
    var s := states[i];
    InvOfRun(states, actions, i);
    BusyIsZeroIffAtRest(s.copies, s.maxRetries);
    if Busy(s) > 0 {
      var c: nat :| c < |s.copies| && !s.copies[c].place.Gone? && !s.copies[c].place.DeadLetterQueue?;
      var step := NextStep(s, c);
    }
  }

  lemma BusyIsBounded(states: seq<State>, actions: seq<Action>, i: nat)
    requires Run(states, actions) && i < |states|
    ensures 0 <= Busy(states[i])
    ensures i < |actions| && Progress(actions[i]) ==> Busy(states[i + 1]) < Busy(states[i])
  {
    InvOfRun(states, actions, i);
    BusyIsZeroIffAtRest(states[i].copies, states[i].maxRetries);
    if i < |actions| && Progress(actions[i]) {
      assert Next(states[i], actions[i], states[i + 1]);
      ProgressDecreases(states[i], actions[i], states[i + 1]);
    }
  }

  /** So any finite set of copies drains: without new copies or crashes only Busy steps remain, whatever their order. */
  lemma {:induction false} QueuesDrain(states: seq<State>, actions: seq<Action>, i: nat, j: nat)
    requires Run(states, actions) && i <= j < |states|
    requires forall n | i <= n < j :: Progress(actions[n])
    ensures 0 <= Busy(states[j]) <= Busy(states[i]) - (j - i)
    decreases j
  {
    BusyIsBounded(states, actions, j);
    if i == j {
    } else {
      QueuesDrain(states, actions, i, j - 1);
      BusyIsBounded(states, actions, j - 1);
    }
  }

  // ---- Runs built by hand

  ghost predicate Reachable(s: State) {
    exists states, actions :: Run(states, actions) && states[|actions|] == s
  }

  lemma TakeStep(s: State, a: Action)
    requires Reachable(s) && Enabled(s, a)
    ensures Reachable(Do(s, a))
  {
    var states, actions :| Run(states, actions) && states[|actions|] == s;
    var states', actions' := states + [Do(s, a)], actions + [a];
    forall i | 0 <= i < |actions'| ensures Next(states'[i], actions'[i], states'[i + 1]) {
      assert i < |actions| ==> Next(states[i], actions[i], states[i + 1]);
    }
    assert Run(states', actions') && states'[|actions'|] == Do(s, a);
  }

  lemma InvOfReachable(s: State)
    requires Reachable(s)
    ensures Inv(s)
  {
    var states, actions :| Run(states, actions) && states[|actions|] == s;
    InvOfRun(states, actions, |actions|);
  }

  /** One sign-up, sent and marked: a single copy waits in the work queue. */
  lemma OneEventQueued(maxRetries: nat, e: EventId) returns (s: State)
    ensures Reachable(s)
    ensures s == State(maxRetries, {e}, {}, multiset{}, [Copy(e, 0, WorkQueue, 0, 0)], R.TIMED_INIT, {e}, {})
  {
    var none: seq<Action> := [];
    assert Run([Init(maxRetries)], none) && [Init(maxRetries)][|none|] == Init(maxRetries);
    TakeStep(Init(maxRetries), SignUp(e));
    var s1 := Do(Init(maxRetries), SignUp(e));
    TakeStep(s1, Send(e));
    var s2 := Do(s1, Send(e));
    TakeStep(s2, Mark(e));
    s := Do(s2, Mark(e));
  }

  /** One step with the only copy. */
  lemma OnlyCopySteps(s: State, step: Step) returns (s': State)
    requires Reachable(s) && |s.copies| == 1 && StepEnabled(s.claims, s.copies[0], step) && !step.StopAfterRepublish?
    ensures Reachable(s') && s'.claims == R.TimedDo(s.claims, ClaimsStep(s.copies[0], step))
    ensures s'.copies == [Moved(s.maxRetries, s.copies[0], step, s'.claims.core.calls)]
    ensures s'.committed == s.committed && s'.unpublished == s.unpublished
  {
    TakeStep(s, Handle(0, step));
    s' := DoHandle(s, 0, step);
  }

  /** One step of the consumer with the only copy. */
  lemma OnlyCopyConsumes(s: State, x: P.Action) returns (s': State)
    requires Reachable(s) && |s.copies| == 1 && StepEnabled(s.claims, s.copies[0], Consume(x))
    ensures Reachable(s') && s'.committed == s.committed && s'.unpublished == s.unpublished
    ensures s'.claims.now == s.claims.now
    ensures s'.claims.redis == RedisApply(s.claims.redis, s.claims.now, P.OpOf(s.claims.core, x)).0
    ensures s'.claims.core == P.After(s.claims.core, x, R.ReplyAt(s.claims, R.Act(x)))
    ensures var copy := s.copies[0];
            && x.c in s'.claims.core.calls && P.Follows(copy.place.phase, s'.claims.core.calls[x.c].phase)
            && s'.copies == [copy.(place := Standing(x.c, s'.claims.core.calls[x.c].phase),
                                   attempts := copy.attempts + if copy.place.phase.Executing? then 1 else 0)]
  {
    InvOfReachable(s);
    var phase := ConsumeMoves(s, 0, x);
    s' := OnlyCopySteps(s, Consume(x));
  }

  /** The only copy is delivered and claims its key. */
  lemma OnlyCopyClaims(s: State, call: P.CallId) returns (s': State)
    requires Reachable(s) && |s.copies| == 1 && s.copies[0].place.WorkQueue? && call !in s.claims.core.calls
    ensures Reachable(s') && s'.committed == s.committed && s'.unpublished == s.unpublished
    ensures var e, r := s.copies[0].event, s.claims.redis;
            var phase := if e in r && !Expired(r[e], s.claims.now) then P.LookingUp else P.Executing;
            && s'.copies == [s.copies[0].(place := Held(call, phase))]
            && s'.claims.core.calls == s.claims.core.calls[call := P.Call(e, phase)]
            && s'.claims.core.history == s.claims.core.history
            && s'.claims.redis == (if phase.LookingUp? then r else r[e := Stamped(InFlight, s.claims.now)])
            && s'.claims.now == s.claims.now
  {
    var s1 := DeliverOnlyCopy(s, call);
    s' := OnlyCopyConsumes(s1, P.ClaimStep(call));
    assert s'.claims.core.calls == s.claims.core.calls[call := s'.claims.core.calls[call]];
  }

  lemma DeliverOnlyCopy(s: State, call: P.CallId) returns (s': State)
    requires Reachable(s) && |s.copies| == 1 && s.copies[0].place.WorkQueue? && call !in s.claims.core.calls
    ensures Reachable(s') && s'.committed == s.committed && s'.unpublished == s.unpublished
    ensures s'.copies == [s.copies[0].(place := Held(call, P.Claiming))]
    ensures s'.claims.core
         == s.claims.core.(calls := s.claims.core.calls[call := P.Call(s.copies[0].event, P.Claiming)])
    ensures s'.claims.redis == s.claims.redis && s'.claims.now == s.claims.now
  {
    s' := OnlyCopySteps(s, Deliver(call));
  }

  lemma AcknowledgeOnlyCopy(s: State) returns (s': State)
    requires Reachable(s) && |s.copies| == 1 && s.copies[0].place.Acking?
    ensures Reachable(s') && s'.committed == s.committed && s'.unpublished == s.unpublished
    ensures s'.copies == [s.copies[0].(place := Gone)] && s'.claims.core == s.claims.core
  {
    s' := OnlyCopySteps(s, Acknowledge);
  }

  /** Turned away, it is looked up and acknowledged. */
  lemma OnlyCopyIsDropped(s: State, call: P.CallId) returns (s': State)
    requires Reachable(s) && |s.copies| == 1 && s.copies[0].place == Held(call, P.LookingUp)
    ensures Reachable(s') && s'.committed == s.committed && s'.unpublished == s.unpublished
    ensures s'.copies == [s.copies[0].(place := Gone)] && s'.claims.core.history == s.claims.core.history
  {
    InvOfReachable(s);
    assert Holds(s, 0, call);
    s' := OnlyCopyConsumes(s, P.FindStep(call));
    s' := AcknowledgeOnlyCopy(s');
  }

  /** Having claimed, it is processed, recorded and acknowledged. */
  lemma OnlyCopyIsProcessed(s: State, call: P.CallId) returns (s': State)
    requires Reachable(s) && |s.copies| == 1 && s.copies[0].place == Held(call, P.Executing)
    ensures Reachable(s') && s'.committed == s.committed && s'.unpublished == s.unpublished
    ensures s'.copies == [s.copies[0].(place := Gone, attempts := s.copies[0].attempts + 1)]
    ensures Processed(s', s.copies[0].event)
  {
    InvOfReachable(s);
    assert Holds(s, 0, call);
    var s1 := OnlyCopyConsumes(s, P.Commit(call, DONE));
    P.CountersAfter(s.claims.core, P.Commit(call, DONE), R.ReplyAt(s.claims, R.Act(P.Commit(call, DONE))),
                    s.copies[0].event);
    var s2 := OnlyCopyConsumes(s1, P.SaveStep(call));
    P.CountersAfter(s1.claims.core, P.SaveStep(call), R.ReplyAt(s1.claims, R.Act(P.SaveStep(call))), s.copies[0].event);
    s' := AcknowledgeOnlyCopy(s2);
  }

  /** The consumer of the only copy stops right after the claim, and the copy is redelivered. */
  lemma StoppedInsideAClaim(maxRetries: nat, e: EventId) returns (s: State)
    ensures Reachable(s) && s.committed == {e} && s.unpublished == {} && s.copies == [Copy(e, 0, WorkQueue, 0, 1)]
    ensures s.claims.redis == map[e := Stamped(InFlight, 0)] && s.claims.now == 0
    ensures s.claims.core.calls.Keys == {0} && s.claims.core.history == map[]
  {
    var s1 := OneEventQueued(maxRetries, e);
    var s2 := OnlyCopyClaims(s1, 0);
    s := OnlyCopySteps(s2, Stop);
  }

  /** Redelivered after this long, the event is lost if the marker is still alive, and processed if it is not. */
  lemma StoppingInsideAClaimLosesTheEventIff(maxRetries: nat, e: EventId, delay: nat) returns (s: State)
    ensures Reachable(s) && e in s.committed && e !in s.unpublished
    ensures s.copies == [Copy(e, 0, Gone, if delay < CLAIM_TTL then 0 else 1, 1)]
    ensures Processed(s, e) <==> CLAIM_TTL <= delay
  {
    var s1 := StoppedInsideAClaim(maxRetries, e);
    TakeStep(s1, TimePasses(delay));
    var s2 := OnlyCopyClaims(Do(s1, TimePasses(delay)), 1);
    if delay < CLAIM_TTL {
      s := OnlyCopyIsDropped(s2, 1);
    } else {
      s := OnlyCopyIsProcessed(s2, 1);
    }
  }
}
