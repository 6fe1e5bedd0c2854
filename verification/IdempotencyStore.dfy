/**
  The idempotency store: its contract as four atomic operations, and the three adapters that implement it.
*/
module IdempotencyStore {
  import opened Wrappers

  type Key = string

  /** A response as the decorator sees it: null or undefined, some other falsy value, or a truthy one. */
  datatype Response = Nothing | Falsy(repr: string) | Truthy(repr: string)

  datatype Entry = InFlight | Completed(response: Response)

  type Store = map<Key, Entry>

  datatype Op = Skip | Claim(key: Key) | Find(key: Key) | Save(key: Key, response: Response) | Release(key: Key)

  datatype Reply = Reply(claimed: bool, found: Response)

  /** The contract shared by all adapters, each operation one atomic step. */
  function Apply(s: Store, op: Op): (r: (Store, Reply))
    ensures forall k :: (op.Skip? || k != op.key) ==> (k in r.0 <==> k in s) && (k in s ==> r.0[k] == s[k])
  {
    match op
    case Skip => (s, Reply(false, Nothing))
    case Claim(k) => if k in s then (s, Reply(false, Nothing)) else (s[k := InFlight], Reply(true, Nothing))
    case Find(k) => (s, Reply(false, if k in s && s[k].Completed? then s[k].response else Nothing))
    case Save(k, response) => (s[k := Completed(response)], Reply(false, Nothing))
    case Release(k) => (if k in s && s[k].InFlight? then s - {k} else s, Reply(false, Nothing))
  }

  /** A response, once saved, survives every claim, lookup and release of any key. */
  lemma SavedResponsesSurvive(s: Store, op: Op, k: Key)
    requires k in s && s[k].Completed? && !op.Save?
    ensures k in Apply(s, op).0 && Apply(s, op).0[k] == s[k]
  {
  }

  // ---- In memory

  datatype MemoryEntry = MemoryEntry(response: Response, hasResponse: bool)

  class InMemoryIdempotencyRepository {
    var storage: map<Key, MemoryEntry>

    constructor ()
      ensures View() == map[]
    {
      storage := map[];
    }

    function View(): Store
      reads this
    {
      map k | k in storage :: if storage[k].hasResponse then Completed(storage[k].response) else InFlight
    }

    method Claim(key: Key) returns (claimed: bool)
      modifies this
      ensures View() == Apply(old(View()), Op.Claim(key)).0 && claimed == Apply(old(View()), Op.Claim(key)).1.claimed
    {
      if key in storage {
        return false;
      }
      storage := storage[key := MemoryEntry(Nothing, false)];
      return true;
    }

    method Save(key: Key, response: Response)
      modifies this
      ensures View() == Apply(old(View()), Op.Save(key, response)).0
    {
      storage := storage[key := MemoryEntry(response, true)];
    }

    method FindByKey(key: Key) returns (found: Response)
      ensures found == Apply(View(), Find(key)).1.found
    {
      found := if key in storage && storage[key].hasResponse then storage[key].response else Nothing;
    }

    method Release(key: Key)
      modifies this
      ensures View() == Apply(old(View()), Op.Release(key)).0
    {
      if key in storage && !storage[key].hasResponse {
        storage := storage - {key};
      }
    }
  }

  // ---- Postgres: a row whose response_body column is NULL is in flight

  class PostgresIdempotencyRepository {
    var rows: map<Key, Option<Response>>

    constructor ()
      ensures View() == map[]
    {
      rows := map[];
    }

    function View(): Store
      reads this
    {
      map k | k in rows :: if rows[k].Some? then Completed(rows[k].value) else InFlight
    }

    /** INSERT ... ON CONFLICT (key) DO NOTHING; claimed when a row was inserted. */
    method Claim(key: Key) returns (claimed: bool)
      modifies this
      ensures View() == Apply(old(View()), Op.Claim(key)).0 && claimed == Apply(old(View()), Op.Claim(key)).1.claimed
    {
      var rowCount := 0;
      if key !in rows {
        rows, rowCount := rows[key := None], 1;
      }
      claimed := rowCount > 0;
    }

    /** An upsert; a missing response is stored as JSON null, which is not SQL NULL. */
    method Save(key: Key, response: Response)
      modifies this
      ensures View() == Apply(old(View()), Op.Save(key, response)).0
    {
      rows := rows[key := Some(response)];
    }

    method FindByKey(key: Key) returns (found: Response)
      ensures found == Apply(View(), Find(key)).1.found
    {
      if key !in rows || rows[key].None? {
        return Nothing;
      }
      found := rows[key].value;
    }

    /** DELETE ... WHERE response_body IS NULL. */
    method Release(key: Key)
      modifies this
      ensures View() == Apply(old(View()), Op.Release(key)).0
    {
      if key in rows && rows[key].None? {
        rows := rows - {key};
      }
    }
  }
}

/**
  The Redis adapter. Every value carries a time to live: thirty seconds for the in-flight marker, a day for
  a response. Time is in milliseconds and is passed to each call.
*/
module RedisIdempotency {
  import opened IdempotencyStore

  const CLAIM_TTL: nat := 30_000
  const RESPONSE_TTL: nat := 86_400_000

  /** A stored value: the marker or the JSON of a response, and when it was written. */
  datatype Stamped = Stamped(entry: Entry, writtenAt: nat)

  type Redis = map<Key, Stamped>

  function Ttl(e: Entry): nat { if e.InFlight? then CLAIM_TTL else RESPONSE_TTL }

  predicate Expired(v: Stamped, now: nat) { v.writtenAt + Ttl(v.entry) <= now }

  /** Redis drops an expired key no later than the next command that touches it. */
  function Touch(r: Redis, k: Key, now: nat): Redis {
    if k in r && Expired(r[k], now) then r - {k} else r
  }

  function RedisApply(r: Redis, now: nat, op: Op): (Redis, Reply) {
    if op.Skip? then (r, Reply(false, Nothing)) else
      var t := Touch(r, op.key, now);
      match op
      case Claim(k) => if k in t then (t, Reply(false, Nothing))
        else (t[k := Stamped(InFlight, now)], Reply(true, Nothing))
      case Find(k) => (t, Reply(false, if k in t && t[k].entry.Completed? then t[k].entry.response else Nothing))
      case Save(k, response) => (t[k := Stamped(Completed(response), now)], Reply(false, Nothing))
      case Release(k) => (if k in t && t[k].entry.InFlight? then t - {k} else t, Reply(false, Nothing))
  }

  /** What a client can see now. */
  function Live(r: Redis, now: nat): Store {
    map k | k in r && !Expired(r[k], now) :: r[k].entry
  }

  /** What was written and never removed, whatever its age. */
  function Written(r: Redis): Store {
    map k | k in r :: r[k].entry
  }

  /** Each command is the contract's operation on what is visible at that moment. */
  lemma CommandsAreContractSteps(r: Redis, now: nat, op: Op)
    ensures var (r', reply) := RedisApply(r, now, op);
            Live(r', now) == Apply(Live(r, now), op).0 && reply == Apply(Live(r, now), op).1
  {
    var (r', _) := RedisApply(r, now, op);
    var (s', _) := Apply(Live(r, now), op);
    forall k ensures (k in Live(r', now) <==> k in s') && (k in s' ==> Live(r', now)[k] == s'[k]) {
    }
  }

  /** A call on a claimed key comes within thirty seconds of the claim, on a saved key within a day of the save. */
  predicate Timely(r: Redis, now: nat, op: Op) {
    !op.Skip? && op.key in r ==> !Expired(r[op.key], now)
  }

  /** The command is timely, or is a save, or releases a marker (which a late release removes either way). */
  predicate ExpiryUnseen(r: Redis, now: nat, op: Op) {
    Timely(r, now, op) || op.Save? || (op.Release? && r[op.key].entry.InFlight?)
  }

  /**
    A command behaves as on a store that never expires anything, in its answer and in what it leaves behind,
    exactly when it does not see an expiry.
  */
  lemma ExpiryIsInvisibleIff(r: Redis, now: nat, op: Op)
    ensures (&& Written(RedisApply(r, now, op).0) == Apply(Written(r), op).0
             && RedisApply(r, now, op).1 == Apply(Written(r), op).1)
       <==> ExpiryUnseen(r, now, op)
  {
    var (r', reply) := RedisApply(r, now, op);
    var (s', reply') := Apply(Written(r), op);
    if ExpiryUnseen(r, now, op) {
      forall k ensures (k in Written(r') <==> k in s') && (k in s' ==> Written(r')[k] == s'[k]) {
      }
    } else {
      assert op.key in s';
      assert op.Claim? ==> reply != reply';
      assert !op.Claim? ==> op.key !in Written(r');
    }
  }

  class RedisIdempotencyRepository {
    var data: Redis

    constructor ()
      ensures data == map[]
    {
      data := map[];
    }

    /** SET key marker NX EX 30. */
    method Claim(key: Key, now: nat) returns (claimed: bool)
      modifies this
      ensures (data, Reply(claimed, Nothing)) == RedisApply(old(data), now, Op.Claim(key))
    {
      data := Touch(data, key, now);
      if key in data {
        return false;
      }
      data := data[key := Stamped(InFlight, now)];
      return true;
    }

    /** SET key json EX 86400: unconditional, resets the time to live. */
    method Save(key: Key, response: Response, now: nat)
      modifies this
      ensures data == RedisApply(old(data), now, Op.Save(key, response)).0
    {
      data := Touch(data, key, now);
      data := data[key := Stamped(Completed(response), now)];
    }

    method FindByKey(key: Key, now: nat) returns (found: Response)
      modifies this
      ensures (data, Reply(false, found)) == RedisApply(old(data), now, Find(key))
    {
      data := Touch(data, key, now);
      if key !in data || data[key].entry.InFlight? {
        return Nothing;
      }
      found := data[key].entry.response;
    }

    /** The check-and-delete script: one atomic step, comparing with a marker that all claims share. */
    method Release(key: Key, now: nat)
      modifies this
      ensures data == RedisApply(old(data), now, Op.Release(key)).0
      ensures key in Live(old(data), now) && old(data)[key].entry.Completed? ==> data == old(data)
    {
      data := Touch(data, key, now);
      if key in data && data[key].entry == InFlight {
        data := data - {key};
      }
    }
  }
}
