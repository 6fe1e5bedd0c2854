/** The transactional outbox and the relays that publish its rows. */
module Outbox {

  datatype Broker = RabbitMq | Kafka

  datatype Event = Event(id: nat, topic: string, payload: string, broker: Broker)

  /** The elements that satisfy a condition, in order. */
  function Filter(s: seq<Event>, p: Event -> bool): seq<Event> {
    if s == [] then [] else Filter(s[..|s| - 1], p) + if p(s[|s| - 1]) then [s[|s| - 1]] else []
  }

  lemma FilterPush(s: seq<Event>, e: Event, p: Event -> bool)
    ensures Filter(s + [e], p) == Filter(s, p) + if p(e) then [e] else []
  {
    assert (s + [e])[..|s|] == s;
  }

  lemma {:induction false} FilterConcat(a: seq<Event>, b: seq<Event>, p: Event -> bool)
    ensures Filter(a + b, p) == Filter(a, p) + Filter(b, p)
    decreases |b|
  {
    if b == [] {
      assert a + b == a;
    } else {
      var n := |b| - 1;
      assert a + b == (a + b[..n]) + [b[n]];
      FilterConcat(a, b[..n], p);
      FilterPush(a + b[..n], b[n], p);
    }
  }

  lemma {:induction false} FilterMembers(s: seq<Event>, p: Event -> bool)
    ensures forall e :: e in Filter(s, p) <==> e in s && p(e)
  {
    if s == [] {
    } else {
      var n := |s| - 1;
      assert s == s[..n] + [s[n]];
      FilterMembers(s[..n], p);
    }
  }

  lemma {:induction false} FilterTwice(s: seq<Event>, p: Event -> bool, q: Event -> bool, r: Event -> bool)
    requires forall e | e in s :: r(e) <==> p(e) && q(e)
    ensures Filter(s, r) == Filter(Filter(s, p), q)
  {
    if s == [] {
    } else {
      var n := |s| - 1;
      assert s == s[..n] + [s[n]];
      FilterTwice(s[..n], p, q, r);
      FilterConcat(Filter(s[..n], p), if p(s[n]) then [s[n]] else [], q);
      FilterPush([], s[n], q);
    }
  }

  lemma {:induction false} FilterKeepsAll(s: seq<Event>, p: Event -> bool)
    requires forall e | e in s :: p(e)
    ensures Filter(s, p) == s
  {
    if s == [] {
    } else {
      var n := |s| - 1;
      assert s == s[..n] + [s[n]];
      FilterKeepsAll(s[..n], p);
    }
  }

  lemma {:induction false} FilterKeepsNone(s: seq<Event>, p: Event -> bool)
    requires forall e | e in s :: !p(e)
    ensures Filter(s, p) == []
  {
    if s == [] {
    } else {
      var n := |s| - 1;
      assert s == s[..n] + [s[n]];
      FilterKeepsNone(s[..n], p);
    }
  }

  lemma {:induction false} FilterSame(s: seq<Event>, p: Event -> bool, q: Event -> bool)
    requires forall e | e in s :: p(e) <==> q(e)
    ensures Filter(s, p) == Filter(s, q)
  {
    if s == [] {
    } else {
      var n := |s| - 1;
      assert s == s[..n] + [s[n]];
      FilterSame(s[..n], p, q);
    }
  }

  ghost predicate DistinctIds(s: seq<Event>) {
    forall i, j :: 0 <= i < j < |s| ==> s[i].id != s[j].id
  }

  lemma {:induction false} FilterDistinct(s: seq<Event>, p: Event -> bool)
    requires DistinctIds(s)
    ensures DistinctIds(Filter(s, p))
  {
    if s == [] {
    } else {
      var n := |s| - 1;
      assert forall i :: 0 <= i < n ==> s[..n][i] == s[i];
      FilterDistinct(s[..n], p);
      FilterMembers(s[..n], p);
      forall e | e in Filter(s[..n], p) ensures e.id != s[n].id {
        var i :| 0 <= i < n && s[..n][i] == e;
      }
    }
  }

  // ---- The repository

  function IsPending(published: set<nat>, broker: Broker): Event -> bool {
    (e: Event) => e.id !in published && e.broker == broker
  }

  /** The rows one relay still has to publish, oldest first. */
  function Pending(events: seq<Event>, published: set<nat>, broker: Broker): seq<Event> {
    Filter(events, IsPending(published, broker))
  }

  function Take(s: seq<Event>, limit: nat): seq<Event> { if |s| <= limit then s else s[..limit] }

  function Drop(s: seq<Event>, limit: nat): seq<Event> { if |s| <= limit then [] else s[limit..] }

  class InMemoryOutboxRepository {
    var events: seq<Event>
    var published: set<nat>
    var nextId: nat

    ghost predicate Valid()
      reads this
    {
      DistinctIds(events) && forall e | e in events :: e.id < nextId
    }

    constructor ()
      ensures Valid() && events == [] && published == {}
    {
      events, published, nextId := [], {}, 0;
    }

    method Add(topic: string, payload: string, broker: Broker) returns (ghost added: Event)
      requires Valid()
      modifies this
      ensures Valid() && events == old(events) + [added] && published == old(published)
      ensures added.topic == topic && added.payload == payload && added.broker == broker
    {
      added := Event(nextId, topic, payload, broker);
      events := events + [Event(nextId, topic, payload, broker)];
      nextId := nextId + 1;
    }

    method FindUnpublished(limit: nat, broker: Broker) returns (batch: seq<Event>)
      ensures batch == Take(Pending(events, published, broker), limit)
    {
      batch := Filter(events, IsPending(published, broker));
      if |batch| > limit {
        batch := batch[..limit];
      }
    }

    method MarkPublished(id: nat)
      modifies this`published
      ensures published == old(published) + {id}
    {
      published := published + {id};
    }
  }

  // ---- The relay

  const BATCH_SIZE: nat := 50

  /** How relaying one row goes: the send throws, the send works but marking throws, or both work. */
  datatype Fate = SendFails | MarkFails | Relayed

  function IsSent(fate: Event -> Fate): Event -> bool { (e: Event) => !fate(e).SendFails? }

  function IsUnmarked(fate: Event -> Fate): Event -> bool { (e: Event) => !fate(e).Relayed? }

  function Marked(batch: seq<Event>, fate: Event -> Fate): set<nat> {
    set e | e in batch && fate(e).Relayed? :: e.id
  }

  lemma MarkedPush(batch: seq<Event>, e: Event, fate: Event -> Fate)
    ensures Marked(batch + [e], fate) == Marked(batch, fate) + if fate(e).Relayed? then {e.id} else {}
  {
    var all := batch + [e];
    assert forall x :: x in all <==> x in batch || x == e;
  }

  /** All rows, those marked, and what has been sent. */
  datatype State = State(events: seq<Event>, published: set<nat>, sent: seq<Event>)

  function Poll(s: State, broker: Broker, fate: Event -> Fate): State {
    var batch := Take(Pending(s.events, s.published, broker), BATCH_SIZE);
    State(s.events, s.published + Marked(batch, fate), s.sent + Filter(batch, IsSent(fate)))
  }

  class OutboxRelay {
    const repository: InMemoryOutboxRepository
    const broker: Broker
    var sent: seq<Event>

    constructor (repository: InMemoryOutboxRepository, broker: Broker)
      ensures this.repository == repository && this.broker == broker && sent == []
    {
      this.repository, this.broker, sent := repository, broker, [];
    }

    /**
      One poll: the oldest pending rows of this broker, each sent and then marked; a row whose send or mark
      throws is left for a later poll and does not stop the batch. Since ids are distinct, exactly the unmarked
      rows of the batch and everything behind the batch are pending afterwards.
    */
    method RelayOnce(fate: Event -> Fate)
      requires repository.Valid()
      modifies this, repository`published
      ensures repository.Valid()
      ensures State(repository.events, repository.published, sent)
           == Poll(old(State(repository.events, repository.published, sent)), broker, fate)
      ensures var pending := old(Pending(repository.events, repository.published, broker));
              Pending(repository.events, repository.published, broker)
              == Filter(Take(pending, BATCH_SIZE), IsUnmarked(fate)) + Drop(pending, BATCH_SIZE)
      ensures var batch := Take(old(Pending(repository.events, repository.published, broker)), BATCH_SIZE);
              && sent == old(sent) + Filter(batch, IsSent(fate))
              && repository.published == old(repository.published) + Marked(batch, fate)
    {
      PendingAfterPoll(State(repository.events, repository.published, sent), broker, fate);
      var batch := repository.FindUnpublished(BATCH_SIZE, broker);
      RelayEach(batch, fate);
    }

    method RelayEach(batch: seq<Event>, fate: Event -> Fate)
      modifies this, repository`published
      ensures sent == old(sent) + Filter(batch, IsSent(fate))
      ensures repository.published == old(repository.published) + Marked(batch, fate)
    {
      ghost var done: seq<Event> := [];
      for i := 0 to |batch|
        invariant done == batch[..i]
        invariant sent == old(sent) + Filter(done, IsSent(fate))
        invariant repository.published == old(repository.published) + Marked(done, fate)
      {
        var event := batch[i];
        FilterPush(done, event, IsSent(fate));
        MarkedPush(done, event, fate);
        done := done + [event];
        if !fate(event).SendFails? {
          sent := sent + [event];
          if !fate(event).MarkFails? {
            repository.MarkPublished(event.id);
          }
        }
      }
      assert done == batch;
    }
  }

  // ---- What a poll does, on values

  /** A poll sends and marks only rows of its own broker, and marks a row only if it sent it in that poll. */
  lemma PollTouchesOwnRowsOnly(s: State, broker: Broker, fate: Event -> Fate)
    ensures var s' := Poll(s, broker, fate);
            && (forall e | e in s'.sent[|s.sent|..] :: e in s.events && e.broker == broker && e.id !in s.published)
            && (forall id | id in s'.published && id !in s.published ::
                exists e :: e in s'.sent[|s.sent|..] && e.id == id)
  {
    var pending := Pending(s.events, s.published, broker);
    var batch := Take(pending, BATCH_SIZE);
    var s' := Poll(s, broker, fate);
    FilterMembers(s.events, IsPending(s.published, broker));
    FilterMembers(batch, IsSent(fate));
    assert s'.sent[|s.sent|..] == Filter(batch, IsSent(fate));
    assert forall e | e in batch :: e in pending;
    forall id | id in s'.published && id !in s.published ensures exists e :: e in s'.sent[|s.sent|..] && e.id == id {
      var e :| e in batch && fate(e).Relayed? && e.id == id;
      assert IsSent(fate)(e);
    }
  }

  lemma SameIdSameRow(events: seq<Event>, e: Event, f: Event)
    requires DistinctIds(events) && e in events && f in events && e.id == f.id
    ensures e == f
  {
    var i :| 0 <= i < |events| && events[i] == e;
    var j :| 0 <= j < |events| && events[j] == f;
  }

  function IsOutside(ids: set<nat>): Event -> bool { (e: Event) => e.id !in ids }

  lemma UnmarkedRows(batch: seq<Event>, rest: seq<Event>, fate: Event -> Fate)
    requires DistinctIds(batch + rest)
    ensures Filter(batch + rest, IsOutside(Marked(batch, fate))) == Filter(batch, IsUnmarked(fate)) + rest
  {
    var outside := IsOutside(Marked(batch, fate));
    FilterConcat(batch, rest, outside);
    forall e | e in batch ensures outside(e) <==> IsUnmarked(fate)(e) {
      if !outside(e) {
        var f :| f in batch && fate(f).Relayed? && f.id == e.id;
        SameIdSameRow(batch + rest, e, f);
      }
    }
    FilterSame(batch, outside, IsUnmarked(fate));
    forall e | e in rest ensures outside(e) {
      var j :| 0 <= j < |rest| && rest[j] == e;
      assert (batch + rest)[|batch| + j] == e;
      forall f | f in batch ensures f.id != e.id {
        var i :| 0 <= i < |batch| && batch[i] == f;
        assert (batch + rest)[i] == f;
      }
    }
    FilterKeepsAll(rest, outside);
  }

  /** What is pending after a poll: the rows of the batch that were not marked, then everything behind the batch. */
  lemma PendingAfterPoll(s: State, broker: Broker, fate: Event -> Fate)
    requires DistinctIds(s.events)
    ensures var pending := Pending(s.events, s.published, broker); var s' := Poll(s, broker, fate);
            Pending(s'.events, s'.published, broker)
            == Filter(Take(pending, BATCH_SIZE), IsUnmarked(fate)) + Drop(pending, BATCH_SIZE)
  {
    var pending := Pending(s.events, s.published, broker);
    var batch, rest := Take(pending, BATCH_SIZE), Drop(pending, BATCH_SIZE);
    var marked := Marked(batch, fate);
    FilterTwice(s.events, IsPending(s.published, broker), IsOutside(marked), IsPending(s.published + marked, broker));
    FilterDistinct(s.events, IsPending(s.published, broker));
    assert pending == batch + rest;
    UnmarkedRows(batch, rest, fate);
  }

  /** Head-of-line blocking: while a full batch keeps failing, no row behind it is ever sent. */
  lemma FailingBatchBlocksTheRest(s: State, broker: Broker, fate: Event -> Fate)
    requires DistinctIds(s.events)
    requires forall e | e in Take(Pending(s.events, s.published, broker), BATCH_SIZE) :: fate(e).SendFails?
    ensures Poll(s, broker, fate).sent == s.sent
    ensures Pending(s.events, Poll(s, broker, fate).published, broker) == Pending(s.events, s.published, broker)
  {
    var pending := Pending(s.events, s.published, broker);
    var batch := Take(pending, BATCH_SIZE);
    PendingAfterPoll(s, broker, fate);
    FilterKeepsAll(batch, IsUnmarked(fate));
    FilterKeepsNone(batch, IsSent(fate));
    assert pending == batch + Drop(pending, BATCH_SIZE);
  }

  function NeverFails(): Event -> Fate { (e: Event) => Relayed }

  function Polls(s: State, broker: Broker, n: nat): State {
    if n == 0 then s else Poll(Polls(s, broker, n - 1), broker, NeverFails())
  }

  /** From s to t the oldest k pending rows of one broker were sent, in creation order and once each, and marked. */
  ghost predicate Published(s: State, t: State, broker: Broker, k: nat) {
    && t.events == s.events
    && t.sent == s.sent + Take(Pending(s.events, s.published, broker), k)
    && Pending(t.events, t.published, broker) == Drop(Pending(s.events, s.published, broker), k)
  }

  /**
    Without new rows or failures, n polls publish the oldest 50n pending rows: the backlog is empty after
    exactly as many polls as it has batches, and not before.
  */
  lemma {:induction false} BacklogDrains(s: State, broker: Broker, n: nat)
    requires DistinctIds(s.events)
    ensures Published(s, Polls(s, broker, n), broker, n * BATCH_SIZE)
    ensures var t := Polls(s, broker, n);
            Pending(t.events, t.published, broker) == [] <==> |Pending(s.events, s.published, broker)| <= n * BATCH_SIZE
  {
    NPolls(s, broker, n);
    var pending := Pending(s.events, s.published, broker);
    assert Drop(pending, n * BATCH_SIZE) == [] <==> |pending| <= n * BATCH_SIZE;
  }

  lemma {:induction false} NPolls(s: State, broker: Broker, n: nat)
    requires DistinctIds(s.events)
    ensures Published(s, Polls(s, broker, n), broker, n * BATCH_SIZE)
  {
    if n == 0 {
      assert Polls(s, broker, 0) == s;
    } else {
      var t := Polls(s, broker, n - 1);
      NPolls(s, broker, n - 1);
      OneMorePoll(s, t, broker, (n - 1) * BATCH_SIZE);
      assert Polls(s, broker, n) == Poll(t, broker, NeverFails());
    }
  }

  lemma OneMorePoll(s: State, t: State, broker: Broker, k: nat)
    requires DistinctIds(s.events) && Published(s, t, broker, k)
    ensures Published(s, Poll(t, broker, NeverFails()), broker, k + BATCH_SIZE)
  {
    PollWithoutFailures(t, broker);
    TakeAndDropInTwo(Pending(s.events, s.published, broker), k, BATCH_SIZE);
  }

  lemma PollWithoutFailures(s: State, broker: Broker)
    requires DistinctIds(s.events)
    ensures var pending := Pending(s.events, s.published, broker); var s' := Poll(s, broker, NeverFails());
            && s'.events == s.events
            && s'.sent == s.sent + Take(pending, BATCH_SIZE)
            && Pending(s'.events, s'.published, broker) == Drop(pending, BATCH_SIZE)
  {
    var batch := Take(Pending(s.events, s.published, broker), BATCH_SIZE);
    PendingAfterPoll(s, broker, NeverFails());
    FilterKeepsAll(batch, IsSent(NeverFails()));
    FilterKeepsNone(batch, IsUnmarked(NeverFails()));
  }

  lemma TakeAndDropInTwo(s: seq<Event>, a: nat, b: nat)
    ensures Take(s, a) + Take(Drop(s, a), b) == Take(s, a + b)
    ensures Drop(Drop(s, a), b) == Drop(s, a + b)
  {
  }

  // ---- Any mix of new rows and polls, by both relays, with any failures

  /** Rows are kept in creation order; a transaction that began earlier and commits later adds its row in between. */
  datatype Action = AddRow(event: Event, at: nat) | PollBy(broker: Broker, fate: Event -> Fate)

  ghost predicate Next(s: State, a: Action, s': State) {
    match a
    case AddRow(e, at) =>
      && at <= |s.events| && (forall f | f in s.events :: f.id != e.id) && e.id !in s.published
      && s' == s.(events := s.events[..at] + [e] + s.events[at..])
    case PollBy(broker, fate) => s' == Poll(s, broker, fate)
  }

  /** Published means sent; not sent means still pending for its own relay. */
  ghost predicate NoRowLost(s: State) {
    && DistinctIds(s.events)
    && (forall e | e in s.events && e.id in s.published :: e in s.sent)
    && (forall e | e in s.sent :: e in s.events)
  }

  lemma RowsAfterAdding(events: seq<Event>, e: Event, at: nat)
    requires at <= |events| && DistinctIds(events) && forall f | f in events :: f.id != e.id
    ensures var events' := events[..at] + [e] + events[at..];
            DistinctIds(events') && forall f :: f in events' <==> f in events || f == e
  {
    var events' := events[..at] + [e] + events[at..];
    assert forall i ::
        0 <= i < |events'| ==> events'[i] == if i < at then events[i] else if i == at then e else events[i - 1];
    forall f | f in events ensures f in events' {
      var i :| 0 <= i < |events| && events[i] == f;
      assert events'[if i < at then i else i + 1] == f;
    }
    assert events'[at] == e;
  }

  lemma NoRowLostPreserved(s: State, a: Action, s': State)
    requires NoRowLost(s) && Next(s, a, s')
    ensures NoRowLost(s')
    ensures (forall e | e in s.events :: e in s'.events) && s.sent <= s'.sent && s.published <= s'.published
  {
    if a.AddRow? {
      RowsAfterAdding(s.events, a.event, a.at);
    } else {
      PollTouchesOwnRowsOnly(s, a.broker, a.fate);
      var added := s'.sent[|s.sent|..];
      assert s'.sent == s.sent + added;
      forall e | e in s'.events && e.id in s'.published ensures e in s'.sent {
        if e.id !in s.published {
          var f :| f in added && f.id == e.id;
          SameIdSameRow(s.events, e, f);
        }
      }
    }
  }

  /** In every run each row is pending for its own relay until it is marked, and sent at least once before that. */
  lemma {:induction false} EveryRowIsPendingOrSent(states: seq<State>, actions: seq<Action>)
    requires |states| == |actions| + 1 && states[0] == State([], {}, [])
    requires forall i :: 0 <= i < |actions| ==> Next(states[i], actions[i], states[i + 1])
    ensures var s := states[|actions|];
            && NoRowLost(s)
            && forall e | e in s.events :: e in Pending(s.events, s.published, e.broker) || e in s.sent
    decreases |actions|
  {
    var s := states[|actions|];
    if actions == [] {
    } else {
      var n := |actions| - 1;
      EveryRowIsPendingOrSent(states[..|actions|], actions[..n]);
      assert Next(states[n], actions[n], states[n + 1]);
      NoRowLostPreserved(states[n], actions[n], states[n + 1]);
    }
    forall e | e in s.events ensures e in Pending(s.events, s.published, e.broker) || e in s.sent {
      FilterMembers(s.events, IsPending(s.published, e.broker));
    }
  }
}
