/** src/pages/api/installs.ts: an install counter kept under one key of a key-value store,
    read by GET and changed by an authorised POST. */
module Installs {
  import opened Wrappers

  const MaxSpots := 100
  const CounterKey := "marketplace_installs"

  /** `Math.max(0, MAX_SPOTS - installs)`: the spots left, never negative. */
  function Remaining(installs: int): (r: int)
    ensures r >= 0 && r >= MaxSpots - installs
    ensures r == 0 || r == MaxSpots - installs
    ensures installs >= 0 ==> r <= MaxSpots
  {
    if MaxSpots - installs > 0 then MaxSpots - installs else 0
  }

  /** A POST body: `count` when it is a number, and the truthiness of `increment` and
      `decrement`. */
  datatype UpdateBody = UpdateBody(count: Option<int>, increment: bool, decrement: bool)

  /** A reply: the counter's three numbers, or an error status with its message. */
  datatype CountReply = Counts(installs: int, remaining: int, maxSpots: int) | Refused(status: nat, message: string)

  /** The stored count; a missing key reads as 0, so a store of non-negative counts reads
      non-negative. */
  function StoredCount(store: map<string, int>): (n: int)
    ensures CounterKey !in store ==> n == 0
    ensures (forall k :: k in store ==> store[k] >= 0) ==> n >= 0
  {
    if CounterKey in store then store[CounterKey] else 0
  }

  function OrZero(v: Option<int>): int {
    if v.Some? then v.value else 0
  }

  /** The store after the change a body asks for: `count` first, then `increment`, then
      `decrement`, else nothing. Any request writes the counter key, and without an explicit
      count a non-negative count stays non-negative. */
  function Mutated(store: map<string, int>, body: UpdateBody): (after: map<string, int>)
    ensures body.count.Some? || body.increment || body.decrement ==> CounterKey in after
    ensures body.count.None? && StoredCount(store) >= 0 ==> StoredCount(after) >= 0
  {
    if body.count.Some? then store[CounterKey := body.count.value]
    else if body.increment then store[CounterKey := StoredCount(store) + 1]
    else if body.decrement then
      store[CounterKey := if StoredCount(store) - 1 > 0 then StoredCount(store) - 1 else 0]
    else store
  }

  /** A numeric count is stored exactly, whatever `increment` and `decrement` say. */
  lemma CountTakesPrecedence(store: map<string, int>, body: UpdateBody)
    requires body.count.Some?
    ensures StoredCount(Mutated(store, body)) == body.count.value
  {
  }

  /** Increment adds one to the stored count, a missing one counting as 0. */
  lemma IncrementAddsOne(store: map<string, int>, increment: bool, decrement: bool)
    requires increment
    ensures StoredCount(Mutated(store, UpdateBody(None, increment, decrement))) == StoredCount(store) + 1
  {
  }

  /** Decrement subtracts one but never goes below 0; at 0 it stays 0. */
  lemma DecrementFloored(store: map<string, int>)
    ensures var after := StoredCount(Mutated(store, UpdateBody(None, false, true)));
      && after >= 0
      && (StoredCount(store) > 0 ==> after == StoredCount(store) - 1)
      && (StoredCount(store) <= 0 ==> after == 0)
  {
  }

  /** A body asking for nothing leaves the store as it was. */
  lemma NoRequestNoChange(store: map<string, int>)
    ensures Mutated(store, UpdateBody(None, false, false)) == store
  {
  }

  /** Only the counter's key is ever written. */
  lemma OnlyCounterKeyWritten(store: map<string, int>, body: UpdateBody, k: string)
    requires k != CounterKey
    ensures k in Mutated(store, body) <==> k in store
    ensures k in store ==> Mutated(store, body)[k] == store[k]
  {
  }

  /** The endpoints over one deployment: the store binding (None when it is not there) and
      the webhook secret ("" when unset). */
  class InstallCounter {
    var kv: Option<map<string, int>>
    const webhookSecret: string

    constructor (kv: Option<map<string, int>>, webhookSecret: string)
      ensures this.kv == kv && this.webhookSecret == webhookSecret
    {
      this.kv := kv;
      this.webhookSecret := webhookSecret;
    }

    /** The count a successful read reports: 0 without a store binding, never negative over
        a store of non-negative counts. */
    function Installs(): (n: int)
      reads this
      ensures kv.None? ==> n == 0
      ensures kv.Some? && (forall k :: k in kv.value ==> kv.value[k] >= 0) ==> n >= 0
    {
      if kv.Some? then StoredCount(kv.value) else 0
    }

    /** The auth gate: with a secret configured the header must be exactly "Bearer <secret>";
        without one, anything passes. A missing header passes only when no secret is set. */
    predicate Authorized(authHeader: Option<string>): (r: bool)
      ensures webhookSecret == "" ==> r
      ensures authHeader.None? ==> (r <==> webhookSecret == "")
      ensures authHeader == Some(webhookSecret) && webhookSecret != "" ==> !r
    {
      webhookSecret == "" || authHeader == Some("Bearer " + webhookSecret)
    }

    /** `kv.get('marketplace_installs')`. */
    method Read() returns (v: Option<int>)
      requires kv.Some?
      ensures v == if CounterKey in kv.value then Some(kv.value[CounterKey]) else None
    {
      var store := kv.value;
      if CounterKey in store {
        v := Some(store[CounterKey]);
      } else {
        v := None;
      }
    }

    /** `kv.put('marketplace_installs', n)`. */
    method Put(n: int)
      requires kv.Some?
      modifies this
      ensures kv == Some(old(kv.value)[CounterKey := n])
    {
      kv := Some(kv.value[CounterKey := n]);
    }

    /** GET. `storeFails` says the store throws when read; the handler then answers with the
        zero fallback. Nothing is changed. */
    method Get(storeFails: bool) returns (r: CountReply)
      ensures r.Counts? && r.maxSpots == MaxSpots && r.remaining == Remaining(r.installs)
      ensures r.installs == if kv.Some? && !storeFails then StoredCount(kv.value) else 0
    {
      var installs := 0;
      if kv.Some? {
        if storeFails {
          return Counts(0, MaxSpots, MaxSpots);
        }
        var stored := Read();
        installs := OrZero(stored);
      }
      r := Counts(installs, Remaining(installs), MaxSpots);
    }

    /** POST. `body` is None when the request body cannot be read as JSON; `storeFails` says
        the store throws when it is used. */
    method Post(authHeader: Option<string>, body: Option<UpdateBody>, storeFails: bool) returns (r: CountReply)
      modifies this
      ensures !Authorized(authHeader) ==> r == Refused(401, "Unauthorized") && kv == old(kv)
      ensures Authorized(authHeader) && body.None? ==>
        r == Refused(500, "Failed to update count") && kv == old(kv)
      ensures Authorized(authHeader) && body.Some? && old(kv).None? ==>
        r == Refused(500, "KV not available") && kv == old(kv)
      ensures Authorized(authHeader) && body.Some? && old(kv).Some? && storeFails ==>
        r == Refused(500, "Failed to update count") && kv == old(kv)
      ensures Authorized(authHeader) && body.Some? && old(kv).Some? && !storeFails ==>
        && kv == Some(Mutated(old(kv).value, body.value))
        && r == Counts(Installs(), Remaining(Installs()), MaxSpots)
    {
      if webhookSecret != "" && authHeader != Some("Bearer " + webhookSecret) {
        return Refused(401, "Unauthorized");
      }
      if body.None? {
        return Refused(500, "Failed to update count");
      }
      if kv.None? {
        return Refused(500, "KV not available");
      }
      if storeFails {
        return Refused(500, "Failed to update count");
      }
      var data := body.value;
      if data.count.Some? {
        Put(data.count.value);
      } else if data.increment {
        var current := Read();
        Put(OrZero(current) + 1);
      } else if data.decrement {
        var current := Read();
        var lowered := OrZero(current) - 1;
        Put(if lowered > 0 then lowered else 0);
      }
      var stored := Read();
      var installs := OrZero(stored);
      r := Counts(installs, Remaining(installs), MaxSpots);
    }
  }

  /** The header an authorised caller sends (none when no secret is configured). */
  function BearerFor(c: InstallCounter): Option<string>
    reads c
  {
    if c.webhookSecret == "" then None else Some("Bearer " + c.webhookSecret)
  }

  /** Setting an absolute count and then reading gives that count back. */
  method SetThenGet(c: InstallCounter, n: int) returns (r: CountReply)
    requires c.kv.Some?
    modifies c
    ensures r == Counts(n, Remaining(n), MaxSpots)
  {
    var posted := c.Post(BearerFor(c), Some(UpdateBody(Some(n), false, false)), false);
    r := c.Get(false);
  }

  /** Decrementing a counter at 0 leaves it at 0. */
  method DecrementAtZero(c: InstallCounter) returns (r: CountReply)
    requires c.kv.Some? && StoredCount(c.kv.value) == 0
    modifies c
    ensures r == Counts(0, MaxSpots, MaxSpots)
  {
    r := c.Post(BearerFor(c), Some(UpdateBody(None, false, true)), false);
  }

  /** A caller without the secret cannot change the count. */
  method UnauthorizedPost(c: InstallCounter, header: Option<string>, body: UpdateBody) returns (r: CountReply)
    requires c.webhookSecret != "" && header != Some("Bearer " + c.webhookSecret)
    modifies c
    ensures r == Refused(401, "Unauthorized") && c.kv == old(c.kv)
  {
    r := c.Post(header, Some(body), false);
  }
}
