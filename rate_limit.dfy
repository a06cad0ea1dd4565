/** The fixed-window, in-memory request limiter of src/lib/rate-limit.ts.
    The process-wide dictionary `rateLimitStore` becomes the `store` field of
    a `RateLimiter` object; the clock reading `Date.now()` becomes the `now`
    argument (milliseconds). */
module RateLimit {
  import opened Wrappers

  const DefaultLimit := 5
  const DefaultWindowMs := 60000
  const TooManyRequestsStatus := 429
  const TooManyRequestsMessage := "Too many requests. Please try again later."

  /** The record kept per identifier. */
  datatype RateRecord = RateRecord(count: int, resetTime: int)

  /** What one call decides: whether the request is let through, and the
      record kept for the identifier afterwards. */
  datatype Admission = Admission(allowed: bool, record: RateRecord)

  /** The number of calls one window admits: `limit`, but at least the one
      call that opens the window. */
  function WindowCapacity(limit: int): (n: int)
    ensures n >= 1 && n >= limit
    ensures limit >= 1 ==> n == limit
  {
    if limit < 1 then 1 else limit
  }

  function Lookup(store: map<string, RateRecord>, identifier: string): (r: Option<RateRecord>)
    ensures r.Some? <==> identifier in store
    ensures r.Some? ==> r.value == store[identifier]
  {
    if identifier in store then Some(store[identifier]) else None
  }

  /** One call of `rateLimit` for an identifier whose stored record is
      `prior`. A missing or expired record (strictly `now > resetTime`) opens a
      new window; inside a window the call is refused once `count >= limit`,
      and otherwise counted. */
  function Admit(prior: Option<RateRecord>, limit: int, windowMs: int, now: int): (a: Admission)
    ensures (prior.None? || now > prior.value.resetTime) ==>
              a == Admission(true, RateRecord(1, now + windowMs))
    ensures prior.Some? && now <= prior.value.resetTime && prior.value.count >= limit ==>
              a == Admission(false, prior.value)
    ensures prior.Some? && now <= prior.value.resetTime && prior.value.count < limit ==>
              a.allowed && a.record == RateRecord(prior.value.count + 1, prior.value.resetTime)
    ensures (prior.None? || 1 <= prior.value.count <= WindowCapacity(limit)) ==>
              1 <= a.record.count <= WindowCapacity(limit)
  {
    if prior.None? || now > prior.value.resetTime then
      Admission(true, RateRecord(1, now + windowMs))
    else if prior.value.count >= limit then
      Admission(false, prior.value)
    else
      Admission(true, prior.value.(count := prior.value.count + 1))
  }

  /** The verdicts of successive calls for one identifier at the times
      `times`, starting from the stored record `prior`. */
  function Verdicts(prior: Option<RateRecord>, limit: int, windowMs: int, times: seq<int>): (v: seq<bool>)
    ensures |v| == |times|
    decreases |times|
  {
    if times == [] then []
    else
      var a := Admit(prior, limit, windowMs, times[0]);
      [a.allowed] + Verdicts(Some(a.record), limit, windowMs, times[1..])
  }

  /** Inside a window that is already open with `count` calls, the i-th
      further call (counting from 0) is allowed exactly when
      `count + i < limit`: once the limit is reached every call is refused
      until the window has passed. */
  lemma {:induction false} OpenWindowVerdicts(r: RateRecord, limit: int, windowMs: int, times: seq<int>)
    requires r.count >= 1
    requires forall k :: 0 <= k < |times| ==> times[k] <= r.resetTime
    ensures forall i :: 0 <= i < |times| ==>
              Verdicts(Some(r), limit, windowMs, times)[i] == (r.count + i < limit)
    decreases |times|
  {
    if times != [] {
      var a := Admit(Some(r), limit, windowMs, times[0]);
      assert a.record.resetTime == r.resetTime;
      OpenWindowVerdicts(a.record, limit, windowMs, times[1..]);
      var v := Verdicts(Some(r), limit, windowMs, times);
      var w := Verdicts(Some(a.record), limit, windowMs, times[1..]);
      assert v == [a.allowed] + w;
      forall i | 1 <= i < |times| ensures v[i] == (r.count + i < limit) {
        assert v[i] == w[i - 1];
        if r.count < limit {
          assert a.record.count == r.count + 1;
        } else {
          assert a.record == r;
          assert !(r.count + (i - 1) < limit);
        }
      }
    }
  }

  /** A window opened at `times[0]` (no record, or an expired one) admits,
      among the calls up to `times[0] + windowMs`, exactly the first
      `WindowCapacity(limit)`. */
  lemma FreshWindowVerdicts(prior: Option<RateRecord>, limit: int, windowMs: int, times: seq<int>)
    requires |times| >= 1
    requires prior.None? || times[0] > prior.value.resetTime
    requires forall k :: 0 <= k < |times| ==> times[k] <= times[0] + windowMs
    ensures forall i :: 0 <= i < |times| ==>
              Verdicts(prior, limit, windowMs, times)[i] == (i < WindowCapacity(limit))
  {
    var r := RateRecord(1, times[0] + windowMs);
    var rest := times[1..];
    assert forall k :: 0 <= k < |rest| ==> rest[k] == times[k + 1];
    OpenWindowVerdicts(r, limit, windowMs, rest);
    var v := Verdicts(prior, limit, windowMs, times);
    assert v == [true] + Verdicts(Some(r), limit, windowMs, rest);
  }

  /** The names of the members of `Object.prototype`. The store is a plain
      object, so `rateLimitStore[identifier]` finds an inherited, truthy value
      for these keys. Comparing `now` with its missing `resetTime` and its
      missing `count` with `limit` are then both false. `count++` writes `NaN`
      onto the inherited value, not into the store, and the call is allowed. */
  const InheritedKeys: set<string> := {
    "constructor", "hasOwnProperty", "isPrototypeOf", "propertyIsEnumerable",
    "toString", "toLocaleString", "valueOf", "__proto__",
    "__defineGetter__", "__defineSetter__", "__lookupGetter__", "__lookupSetter__"
  }

  /** What one call of `rateLimit` decides, and the store it leaves. */
  datatype Outcome = Outcome(allowed: bool, store: map<string, RateRecord>)

  /** One call of `rateLimit` on the whole store. An inherited key is always
      allowed and never stored. Any other key is decided by `Admit` on its own
      record, and only that record changes. */
  function Call(store: map<string, RateRecord>, identifier: string, limit: int, windowMs: int, now: int): (o: Outcome)
    ensures identifier in InheritedKeys ==> o == Outcome(true, store)
    ensures identifier !in InheritedKeys ==>
              o.allowed == Admit(Lookup(store, identifier), limit, windowMs, now).allowed &&
              Lookup(o.store, identifier) == Some(Admit(Lookup(store, identifier), limit, windowMs, now).record)
    ensures forall id :: id != identifier ==> Lookup(o.store, id) == Lookup(store, id)
    ensures !o.allowed ==> o.store == store
  {
    if identifier in InheritedKeys then Outcome(true, store)
    else
      var a := Admit(Lookup(store, identifier), limit, windowMs, now);
      Outcome(a.allowed, store[identifier := a.record])
  }

  /** The verdicts of successive calls for one key at the times `times`,
      each on the store the previous call left. */
  function CallVerdicts(store: map<string, RateRecord>, identifier: string, limit: int, windowMs: int,
                        times: seq<int>): (v: seq<bool>)
    ensures |v| == |times|
    decreases |times|
  {
    if times == [] then []
    else
      var o := Call(store, identifier, limit, windowMs, times[0]);
      [o.allowed] + CallVerdicts(o.store, identifier, limit, windowMs, times[1..])
  }

  /** For an ordinary key, calls on the store give the verdicts of the key's
      own record, so the window bounds of `OpenWindowVerdicts` and
      `FreshWindowVerdicts` apply. */
  lemma {:induction false} CallVerdictsFollowRecord(store: map<string, RateRecord>, identifier: string, limit: int,
                                                   windowMs: int, times: seq<int>)
    requires identifier !in InheritedKeys
    ensures CallVerdicts(store, identifier, limit, windowMs, times) ==
              Verdicts(Lookup(store, identifier), limit, windowMs, times)
    decreases |times|
  {
    if times != [] {
      var o := Call(store, identifier, limit, windowMs, times[0]);
      CallVerdictsFollowRecord(o.store, identifier, limit, windowMs, times[1..]);
    }
  }

  /** A key named after an `Object.prototype` member is never refused,
      however many calls it makes, and nothing is ever stored for it. */
  lemma {:induction false} InheritedKeyNeverLimited(store: map<string, RateRecord>, identifier: string, limit: int,
                                                  windowMs: int, times: seq<int>)
    requires identifier in InheritedKeys
    ensures forall i :: 0 <= i < |times| ==> CallVerdicts(store, identifier, limit, windowMs, times)[i]
    decreases |times|
  {
    if times != [] {
      InheritedKeyNeverLimited(store, identifier, limit, windowMs, times[1..]);
      var v := CallVerdicts(store, identifier, limit, windowMs, times);
      assert v == [true] + CallVerdicts(store, identifier, limit, windowMs, times[1..]);
    }
  }

  /** The answer `rateLimitResponse` gives a refused caller. */
  datatype LimitResponse = LimitResponse(status: int, error: string)

  function RateLimitResponse(): (r: LimitResponse)
    ensures r.status == TooManyRequestsStatus
  {
    LimitResponse(TooManyRequestsStatus, TooManyRequestsMessage)
  }

  /** The limiter: one record per identifier, kept for the life of the
      process and never evicted. */
  class RateLimiter {
    var store: map<string, RateRecord>

    /** Every stored record has counted the call that created it, and no
        inherited key is ever stored. */
    ghost predicate Valid()
      reads this
    {
      forall id :: id in store ==> store[id].count >= 1 && id !in InheritedKeys
    }

    /** Every stored count is within what one window admits under `limit`. */
    ghost predicate Bounded(limit: int)
      reads this
    {
      forall id :: id in store ==> 1 <= store[id].count <= WindowCapacity(limit)
    }

    constructor ()
      ensures Valid() && store == map[]
    {
      store := map[];
    }

    /** `rateLimit(identifier, limit, windowMs)`: decides one call and
        updates at most the record of `identifier`. */
    method RateLimit(identifier: string, now: int, limit: int := DefaultLimit, windowMs: int := DefaultWindowMs)
      returns (allowed: bool)
      requires Valid()
      modifies this
      ensures Valid()
      ensures allowed == Call(old(store), identifier, limit, windowMs, now).allowed
      ensures store == Call(old(store), identifier, limit, windowMs, now).store
      ensures identifier in InheritedKeys ==> allowed && store == old(store)
      ensures identifier !in InheritedKeys ==>
                store == old(store)[identifier := Admit(Lookup(old(store), identifier), limit, windowMs, now).record]
      ensures forall id :: id != identifier ==> Lookup(store, id) == Lookup(old(store), id)
      ensures !allowed ==> store == old(store)
      ensures old(Bounded(limit)) ==> Bounded(limit)
    {
      if identifier in InheritedKeys {
        return true;
      }
      if identifier !in store || now > store[identifier].resetTime {
        store := store[identifier := RateRecord(1, now + windowMs)];
        return true;
      }
      var record := store[identifier];
      if record.count >= limit {
        return false;
      }
      store := store[identifier := record.(count := record.count + 1)];
      return true;
    }
  }
}
