/** The consumer as it runs: one message handled from delivery to acknowledgement. */
module AccountCreatedConsumer {
  import opened Wrappers
  import opened IdempotencyStore
  import opened RedisIdempotency
  import AccountEvents
  import Protocol = IdempotencyProtocol
  import Rounding

  /** A message as received; foreign publishers may leave out the message id, and a missing header counts as zero. */
  datatype Message = Message(messageId: Option<Key>, retryCount: Option<nat>, content: string)

  datatype Command =
    | Ack(message: Message)
    | SendToRetry(message: Message, expirationMs: int)
    | SendToDlq(message: Message)

  datatype BackoffConfig = BackoffConfig(baseDelayMs: real, maxDelayMs: real, jitterMs: real)

  function GetRetryCount(m: Message): nat { if m.retryCount.Some? then m.retryCount.value else 0 }

  function Pow2(n: nat): (p: real)
    ensures p >= 1.0
  {
    if n == 0 then 1.0 else 2.0 * Pow2(n - 1)
  }

  function ComputeBackoffDelayMs(attempt: nat, config: BackoffConfig, random: real): real
    requires attempt >= 1
  {
    var exponential := config.baseDelayMs * Pow2(attempt - 1);
    var jitter := if config.jitterMs > 0.0 then random * config.jitterMs else 0.0;
    if exponential + jitter <= config.maxDelayMs then exponential + jitter else config.maxDelayMs
  }

  /**
    Jitter only lengthens a delay, never beyond the ceiling, and for the same draw a later attempt never waits
    less.
  */
  lemma BackoffIsBoundedAndGrows(attempt: nat, config: BackoffConfig, random: real)
    requires attempt >= 1 && 0.0 <= random < 1.0 && config.baseDelayMs >= 0.0
    ensures var delay := ComputeBackoffDelayMs(attempt, config, random);
            && delay <= config.maxDelayMs
            && (delay >= config.baseDelayMs * Pow2(attempt - 1) || delay == config.maxDelayMs)
            && delay <= ComputeBackoffDelayMs(attempt + 1, config, random)
  {
    assert Pow2(attempt) == 2.0 * Pow2(attempt - 1);
    var d := config.baseDelayMs * Pow2(attempt - 1);
    assert config.baseDelayMs * Pow2(attempt) == 2.0 * d;
    assert 0.0 <= d;
    assert config.jitterMs > 0.0 ==> 0.0 <= random * config.jitterMs;
  }

  /** What handling a message leaves behind, when nothing else runs in between. */
  function Handled(claims: Store, m: Message, maxRetries: nat, processing: Protocol.UseCase, save: Protocol.SaveResult,
                   expirationMs: int): (Store, seq<Command>)
  {
    var retried := m.(retryCount := Some(GetRetryCount(m) + 1));
    var failure := if GetRetryCount(m) + 1 > maxRetries then [SendToDlq(retried), Ack(m)]
      else [SendToRetry(retried, expirationMs), Ack(m)];
    if m.messageId.None? then (claims, if processing.Succeeds? then [Ack(m)] else failure)
    else
      var (claims', phase) := Protocol.Alone(claims, m.messageId.value, processing, save);
      (claims', if phase.Threw? then failure else [Ack(m)])
  }

  /** Where the copy of a handled message ends up in the broker. */
  function Destination(copy: AccountEvents.Copy, maxRetries: nat, end: Protocol.Phase): AccountEvents.Place {
    if !end.Threw? then AccountEvents.Gone
    else if copy.retries + 1 > maxRetries then AccountEvents.DeadLetterQueue
    else AccountEvents.RetryQueue
  }

  /** The responses and claims that are alive. */
  function Visible(s: AccountEvents.State): Store { Live(s.claims.redis, s.claims.now) }

  /** Handling one queued copy without interruption or delay is one of the runs of the whole pipeline. */
  lemma HandlingIsARun(s: AccountEvents.State, c: nat, call: Protocol.CallId, processing: Protocol.UseCase,
                       save: Protocol.SaveResult)
    returns (s': AccountEvents.State)
    requires AccountEvents.Reachable(s) && c < |s.copies| && s.copies[c].place.WorkQueue?
    requires call !in s.claims.core.calls
    requires processing.Succeeds? ==> processing.response == AccountEvents.DONE
    ensures AccountEvents.Reachable(s') && c < |s'.copies|
    ensures var (visible, end) := Protocol.Alone(Visible(s), s.copies[c].event, processing, save);
            && Visible(s') == visible
            && s'.copies[c].place == Destination(s.copies[c], s.maxRetries, end)
            && s'.copies[c].retries == s.copies[c].retries + (if end.Threw? then 1 else 0)
  {
    var e := s.copies[c].event;
    var s1 := Delivered(s, c, call);
    var s2 := Consumed(s1, c, Protocol.ClaimStep(call));
    if e in Visible(s) {
      s' := TurnedAway(s2, c, call);
    } else {
      s' := Attempt(Visible(s), s2, c, call, processing, save);
    }
  }

  lemma TurnedAway(s: AccountEvents.State, c: nat, call: Protocol.CallId) returns (s': AccountEvents.State)
    requires AccountEvents.Reachable(s) && AccountEvents.Holds(s, c, call) && s.copies[c].place.phase.LookingUp?
    ensures AccountEvents.Reachable(s') && c < |s'.copies| && Visible(s') == Visible(s)
    ensures s'.copies[c].place.Gone? && s'.copies[c].retries == s.copies[c].retries
  {
    var s1 := Consumed(s, c, Protocol.FindStep(call));
    s' := Finished(s1, c, AccountEvents.Acknowledge);
  }

  lemma Attempt(before: Store, s: AccountEvents.State, c: nat, call: Protocol.CallId, processing: Protocol.UseCase,
                save: Protocol.SaveResult)
    returns (s': AccountEvents.State)
    requires AccountEvents.Reachable(s) && AccountEvents.Holds(s, c, call) && s.copies[c].place.phase.Executing?
    requires var e := s.copies[c].event; e !in before && Visible(s) == before[e := InFlight]
    requires processing.Succeeds? ==> processing.response == AccountEvents.DONE
    ensures AccountEvents.Reachable(s') && c < |s'.copies|
    ensures var (visible, end) := Protocol.Alone(before, s.copies[c].event, processing, save);
            && Visible(s') == visible
            && s'.copies[c].place == Destination(s.copies[c], s.maxRetries, end)
            && s'.copies[c].retries == s.copies[c].retries + (if end.Threw? then 1 else 0)
  {
    if processing.Succeeds? {
      var s1 := Consumed(s, c, Protocol.Commit(call, AccountEvents.DONE));
      s' := RecordOutcome(before, s1, c, call, save);
    } else {
      var s1 := Consumed(s, c, Protocol.Fail(call));
      s' := GiveUp(s1, c, call);
      assert Visible(s') == before;
    }
  }

  lemma RecordOutcome(before: Store, s: AccountEvents.State, c: nat, call: Protocol.CallId, save: Protocol.SaveResult)
    returns (s': AccountEvents.State)
    requires AccountEvents.Reachable(s) && AccountEvents.Holds(s, c, call)
    requires s.copies[c].place.phase == Protocol.Saving(AccountEvents.DONE)
    requires var e := s.copies[c].event; e !in before && Visible(s) == before[e := InFlight]
    ensures AccountEvents.Reachable(s') && c < |s'.copies|
    ensures Visible(s') == if save.Lost? then before else before[s.copies[c].event := Completed(AccountEvents.DONE)]
    ensures s'.copies[c].place == if save.Saved? then AccountEvents.Gone
                                  else AccountEvents.Republished(s.maxRetries, s.copies[c]).place
    ensures s'.copies[c].retries == s.copies[c].retries + (if save.Saved? then 0 else 1)
  {
    if save.Saved? {
      var s1 := Consumed(s, c, Protocol.SaveStep(call));
      s' := Finished(s1, c, AccountEvents.Acknowledge);
    } else {
      s' := RecordFails(before, s, c, call, save.Lost?);
    }
  }

  lemma RecordFails(before: Store, s: AccountEvents.State, c: nat, call: Protocol.CallId, lost: bool)
    returns (s': AccountEvents.State)
    requires AccountEvents.Reachable(s) && AccountEvents.Holds(s, c, call)
    requires s.copies[c].place.phase == Protocol.Saving(AccountEvents.DONE)
    requires var e := s.copies[c].event; e !in before && Visible(s) == before[e := InFlight]
    ensures AccountEvents.Reachable(s') && c < |s'.copies|
    ensures Visible(s') == if lost then before else before[s.copies[c].event := Completed(AccountEvents.DONE)]
    ensures s'.copies[c].place == AccountEvents.Republished(s.maxRetries, s.copies[c]).place
    ensures s'.copies[c].retries == s.copies[c].retries + 1
  {
    if lost {
      var s1 := Consumed(s, c, Protocol.SaveLost(call));
      s' := GiveUp(s1, c, call);
    } else {
      var s1 := Consumed(s, c, Protocol.SaveUnacknowledged(call));
      s' := GiveUp(s1, c, call);
    }
  }

  lemma GiveUp(s: AccountEvents.State, c: nat, call: Protocol.CallId) returns (s': AccountEvents.State)
    requires AccountEvents.Reachable(s) && AccountEvents.Holds(s, c, call) && s.copies[c].place.phase.Releasing?
    ensures AccountEvents.Reachable(s') && c < |s'.copies|
    ensures Visible(s') == Apply(Visible(s), Release(s.copies[c].event)).0
    ensures s'.copies[c].place == AccountEvents.Republished(s.maxRetries, s.copies[c]).place
    ensures s'.copies[c].retries == s.copies[c].retries + 1
  {
    var s1 := Consumed(s, c, Protocol.ReleaseStep(call));
    s' := Finished(s1, c, AccountEvents.HandleFailure);
  }

  lemma Delivered(s: AccountEvents.State, c: nat, call: Protocol.CallId) returns (s': AccountEvents.State)
    requires AccountEvents.Reachable(s) && c < |s.copies| && s.copies[c].place.WorkQueue?
    requires call !in s.claims.core.calls
    ensures AccountEvents.Reachable(s') && s'.maxRetries == s.maxRetries && Visible(s') == Visible(s)
    ensures s'.copies == s.copies[c := s.copies[c].(place := AccountEvents.Held(call, Protocol.Claiming))]
  {
    AccountEvents.TakeStep(s, AccountEvents.Handle(c, AccountEvents.Deliver(call)));
    s' := AccountEvents.DoHandle(s, c, AccountEvents.Deliver(call));
  }

  /** The actions of a call in this phase. */
  predicate Fits(phase: Protocol.Phase, x: Protocol.Action) {
    match x
    case ClaimStep(_) => phase.Claiming?
    case FindStep(_) => phase.LookingUp?
    case Commit(_, response) => phase.Executing? && response == AccountEvents.DONE
    case Fail(_) => phase.Executing?
    case SaveStep(_) => phase == Protocol.Saving(AccountEvents.DONE)
    case SaveLost(_) => phase.Saving?
    case SaveUnacknowledged(_) => phase == Protocol.Saving(AccountEvents.DONE)
    case ReleaseStep(_) => phase.Releasing?
    case _ => false
  }

  /** The phase an action leads to from what is visible. */
  function PhaseAfter(visible: Store, e: Key, x: Protocol.Action): Protocol.Phase {
    match x
    case ClaimStep(_) => if e in visible then Protocol.LookingUp else Protocol.Executing
    case FindStep(_) =>
      var found := Apply(visible, Find(e)).1.found;
      if found.Truthy? then Protocol.Returned(found) else Protocol.InFlightError
    case Commit(_, response) => Protocol.Saving(response)
    case SaveStep(_) => Protocol.Returned(AccountEvents.DONE)
    case SaveUnacknowledged(_) => Protocol.Releasing(true)
    case ReleaseStep(_) => Protocol.Threw
    case _ => Protocol.Releasing(false)
  }

  /** The contract's operation behind an action. */
  function OpFor(e: Key, x: Protocol.Action): Op {
    match x
    case ClaimStep(_) => Claim(e)
    case FindStep(_) => Find(e)
    case SaveStep(_) => Save(e, AccountEvents.DONE)
    case SaveUnacknowledged(_) => Save(e, AccountEvents.DONE)
    case ReleaseStep(_) => Release(e)
    case _ => Skip
  }

  /** A step of the consumer with this copy, seen on what is visible. */
  lemma Consumed(s: AccountEvents.State, c: nat, x: Protocol.Action) returns (s': AccountEvents.State)
    requires AccountEvents.Reachable(s) && AccountEvents.Holds(s, c, x.c) && Fits(s.copies[c].place.phase, x)
    ensures AccountEvents.Reachable(s') && s'.maxRetries == s.maxRetries && |s'.copies| == |s.copies|
    ensures Visible(s') == Apply(Visible(s), OpFor(s.copies[c].event, x)).0
    ensures s'.copies[c].event == s.copies[c].event && s'.copies[c].retries == s.copies[c].retries
    ensures s'.copies[c].place == AccountEvents.Standing(x.c, PhaseAfter(Visible(s), s.copies[c].event, x))
  {
    AccountEvents.InvOfReachable(s);
    var phase := AccountEvents.ConsumeMoves(s, c, x);
    CommandsAreContractSteps(s.claims.redis, s.claims.now, Protocol.OpOf(s.claims.core, x));
    AccountEvents.TakeStep(s, AccountEvents.Handle(c, AccountEvents.Consume(x)));
    s' := AccountEvents.DoHandle(s, c, AccountEvents.Consume(x));
  }

  lemma Finished(s: AccountEvents.State, c: nat, step: AccountEvents.Step) returns (s': AccountEvents.State)
    requires AccountEvents.Reachable(s) && c < |s.copies| && (step.Acknowledge? || step.HandleFailure?)
    requires AccountEvents.StepEnabled(s.claims, s.copies[c], step)
    ensures AccountEvents.Reachable(s') && |s'.copies| == |s.copies| && Visible(s') == Visible(s)
    ensures s'.copies[c] == if step.Acknowledge? then s.copies[c].(place := AccountEvents.Gone)
                            else AccountEvents.Republished(s.maxRetries, s.copies[c])
  {
    AccountEvents.TakeStep(s, AccountEvents.Handle(c, step));
    s' := AccountEvents.DoHandle(s, c, step);
  }

  class Channel {
    var commands: seq<Command>

    constructor ()
      ensures commands == []
    {
      commands := [];
    }

    method Issue(command: Command)
      modifies this
      ensures commands == old(commands) + [command]
    {
      commands := commands + [command];
    }
  }

  class Consumer {
    const channel: Channel
    const repository: InMemoryIdempotencyRepository
    const maxRetries: nat
    const backoff: BackoffConfig

    constructor (channel: Channel, repository: InMemoryIdempotencyRepository, maxRetries: nat, backoff: BackoffConfig)
      ensures this.channel == channel && this.repository == repository
      ensures this.maxRetries == maxRetries && this.backoff == backoff
    {
      this.channel, this.repository, this.maxRetries, this.backoff := channel, repository, maxRetries, backoff;
    }

    function ExpirationFor(m: Message, random: real): int {
      Rounding.Round(ComputeBackoffDelayMs(GetRetryCount(m) + 1, backoff, random))
    }

    /** Processing and saving are given by how they turn out this time. */
    method HandleMessage(m: Message, processing: Protocol.UseCase, save: Protocol.SaveResult, random: real)
      requires processing.Succeeds? ==> processing.response == Truthy("true")
      modifies channel, repository
      ensures repository.View()
           == Handled(old(repository.View()), m, maxRetries, processing, save, ExpirationFor(m, random)).0
      ensures channel.commands
           == old(channel.commands)
             + Handled(old(repository.View()), m, maxRetries, processing, save, ExpirationFor(m, random)).1
    {
      if m.messageId.None? {
        ProcessAndAck(m, processing, save, random);
        return;
      }
      var key := m.messageId.value;
      var claimed := repository.Claim(key);
      if !claimed {
        // Already processed, or in flight elsewhere: either way this delivery is acknowledged and skipped.
        channel.Issue(Ack(m));
        return;
      }
      ProcessAndAck(m, processing, save, random);
      assert processing.Fails? || save.Lost? ==> repository.View() == old(repository.View());
    }

    method ProcessAndAck(m: Message, processing: Protocol.UseCase, save: Protocol.SaveResult, random: real)
      requires processing.Succeeds? ==> processing.response == Truthy("true")
      modifies channel, repository
      ensures m.messageId.None? ==> repository.View() == old(repository.View())
      ensures m.messageId.Some? && processing.Succeeds? && !save.Lost? ==>
                repository.View() == Apply(old(repository.View()), Save(m.messageId.value, Truthy("true"))).0
      ensures m.messageId.Some? && (processing.Fails? || save.Lost?) ==>
                repository.View() == Apply(old(repository.View()), Release(m.messageId.value)).0
      ensures var retried := m.(retryCount := Some(GetRetryCount(m) + 1));
              channel.commands == old(channel.commands) +
                if processing.Succeeds? && (m.messageId.None? || save.Saved?) then [Ack(m)]
                else if GetRetryCount(m) + 1 > maxRetries then [SendToDlq(retried), Ack(m)]
                else [SendToRetry(retried, ExpirationFor(m, random)), Ack(m)]
    {
      if processing.Succeeds? {
        if m.messageId.Some? && !save.Lost? {
          repository.Save(m.messageId.value, Truthy("true"));
        }
        if m.messageId.None? || save.Saved? {
          channel.Issue(Ack(m));
          return;
        }
      }
      if m.messageId.Some? {
        repository.Release(m.messageId.value);
      }
      HandleFailure(m, random);
    }

    method HandleFailure(m: Message, random: real)
      modifies channel
      ensures var retried := m.(retryCount := Some(GetRetryCount(m) + 1));
              channel.commands == old(channel.commands) +
                if GetRetryCount(m) + 1 > maxRetries then [SendToDlq(retried), Ack(m)]
                else [SendToRetry(retried, ExpirationFor(m, random)), Ack(m)]
    {
      var retryCount := GetRetryCount(m) + 1;
      var retried := m.(retryCount := Some(retryCount));
      if retryCount > maxRetries {
        channel.Issue(SendToDlq(retried));
        channel.Issue(Ack(m));
        return;
      }
      var delayMs := ComputeBackoffDelayMs(retryCount, backoff, random);
      channel.Issue(SendToRetry(retried, Rounding.Round(delayMs)));
      channel.Issue(Ack(m));
    }
  }
}
